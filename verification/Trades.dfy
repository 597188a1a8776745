/** orchestration/trades.py and orchestration/utils.py: the trades run. */
module Trades {
  import opened Prelude
  import opened Windows
  import opened Handlers
  import opened FlexClient
  import Retry

  /** An execution row: its account and its calendar date, if it has one. */
  datatype Trade = Trade(account: string, day: Option<nat>)

  datatype Ask = First | QueryDefault | Period5

  datatype Answer = Rows(rows: seq<Trade>) | Rejected(why: Refusal) | Broken(message: string)

  type Ib = Ask -> Answer

  /** What one query comes to; Died is any exception other than ValueError. */
  datatype Reply = Got(rows: seq<Trade>, usedFallback: bool) | Failed(message: string) | Died(message: string)

  const CHAIN := [First, QueryDefault, Period5]
  const ALSO_FAILED := "; " + IN_BETWEEN + ": "
  const IN_BETWEEN := "fallback query-default/" + "period=5 also failed"

  predicate Empty(a: Answer) {
    a == Rows([])
  }

  /** The first request lets the chain go on: fallback allowed, and an empty answer or, for a dated request,
      a refusal that the statement is not available. */
  predicate Widens(ib: Ib, dated: bool, allow: bool) {
    && allow
    && (|| ib(First) == Rows([])
        || (&& dated && ib(First).Rejected?
            && (|| Retry.Contains(Message(ib(First).why), "[1003]")
                || Retry.Contains(Message(ib(First).why), "Statement is not available"))))
  }

  // What a query comes to, in IB's answers alone --------------------------------------------

  /** The query has rows, or an honest empty answer of every request made. */
  predicate IsAnswered(ib: Ib, dated: bool, allow: bool) {
    if !Widens(ib, dated, allow) then ib(First).Rows?
    else
      && !ib(QueryDefault).Broken?
      && (|| (ib(QueryDefault).Rows? && ib(QueryDefault).rows != [])
          || (ib(Period5).Rows? && ib(Period5).rows != [])
          || (ib(First) == Rows([]) && ib(QueryDefault) == Rows([]) && ib(Period5) == Rows([])))
  }

  /** Those of the first request that brought any. */
  function RowsSent(ib: Ib, dated: bool, allow: bool): seq<Trade>
    requires IsAnswered(ib, dated, allow)
  {
    if ib(First).Rows? && (ib(First).rows != [] || !allow) then ib(First).rows
    else if ib(QueryDefault).Rows? && ib(QueryDefault).rows != [] then ib(QueryDefault).rows
    else ib(Period5).rows
  }

  /** Some exception other than a refusal. */
  predicate Breaks(ib: Ib, dated: bool, allow: bool) {
    || ib(First).Broken?
    || (&& Widens(ib, dated, allow)
        && (|| ib(QueryDefault).Broken?
            || (!(ib(QueryDefault).Rows? && ib(QueryDefault).rows != []) && ib(Period5).Broken?)))
  }

  function BreakText(ib: Ib, dated: bool, allow: bool): string
    requires Breaks(ib, dated, allow)
  {
    if ib(First).Broken? then ib(First).message
    else if ib(QueryDefault).Broken? then ib(QueryDefault).message
    else ib(Period5).message
  }

  /** The error that a later step reports if it finds nothing. */
  function Pending(ib: Ib): Option<string> {
    if ib(First).Rejected? then Some(Message(ib(First).why))
    else if ib(QueryDefault).Rejected? then Some(Message(ib(QueryDefault).why))
    else None
  }

  function Chain(ib: Ib, dated: bool, allow: bool): Reply {
    if !Widens(ib, dated, allow) then
      match ib(First)
      case Rows(rows) => Got(rows, false)
      case Rejected(why) => Failed(Message(why))
      case Broken(m) => Died(m)
    else if ib(QueryDefault).Broken? then Died(ib(QueryDefault).message)
    else if ib(QueryDefault).Rows? && ib(QueryDefault).rows != [] then Got(ib(QueryDefault).rows, true)
    else match ib(Period5)
      case Broken(m) => Died(m)
      case Rejected(why) =>
        Failed(if Pending(ib).Some? then Pending(ib).value + ALSO_FAILED + Message(why) else Message(why))
      case Rows(rows) =>
        if rows != [] then Got(rows, true)
        else if Pending(ib).Some? then Failed(Pending(ib).value)
        else Got([], false)
  }

  /** The chain in those words. */
  lemma ChainIs(ib: Ib, dated: bool, allow: bool)
    ensures var r := Chain(ib, dated, allow);
      && (r.Got? <==> IsAnswered(ib, dated, allow))
      && (r.Got? ==> r.rows == RowsSent(ib, dated, allow))
      && (r.Died? <==> Breaks(ib, dated, allow))
      && (r.Died? ==> r.message == BreakText(ib, dated, allow))
  {
  }

  /** _fetch_trades_with_date_fallback: at most three requests, one when fallback is off; the first
      non-empty answer is the result, and an empty one only if every request answered empty. */
  method FetchWithFallback(ib: Ib, dated: bool, allow: bool) returns (r: Reply, asked: seq<Ask>)
    ensures r == Chain(ib, dated, allow)
    ensures 1 <= |asked| <= 3 && asked == CHAIN[..|asked|]
    ensures |asked| > 1 <==> Widens(ib, dated, allow)
    ensures !allow ==> asked == [First]
    ensures r.Got? <==> IsAnswered(ib, dated, allow)
    ensures r.Died? <==> Breaks(ib, dated, allow)
    ensures r.Got? && r.rows != [] ==> ib(asked[|asked| - 1]) == Rows(r.rows) && (r.usedFallback <==> |asked| > 1)
    ensures r.Got? && r.rows == [] ==> forall a :: a in asked ==> Empty(ib(a))
    ensures forall i :: 0 <= i < |asked| - 1 ==> Empty(ib(asked[i])) || ib(asked[i]).Rejected?
    ensures (exists a :: a in asked && ib(a).Rows? && ib(a).rows != []) <==> r.Got? && r.rows != []
  {
    ChainIs(ib, dated, allow);
    var rows: seq<Trade> := [];
    var primary: Option<string> := None;
    asked := [First];
    match ib(First) {
      case Rows(got) => rows := got;
      case Broken(m) => return Died(m), asked;
      case Rejected(why) =>
        if !dated || !Unavailable(Message(why)) || !allow {
          return Failed(Message(why)), asked;
        }
        primary := Some(Message(why));
    }
    if rows != [] || !allow {
      return Got(rows, false), asked;
    }
    asked := asked + [QueryDefault];
    match ib(QueryDefault) {
      case Rows(got) =>
        if got != [] {
          return Got(got, true), asked;
        }
      case Broken(m) => return Died(m), asked;
      case Rejected(why) =>
        if primary.None? {
          primary := Some(Message(why));
        }
    }
    asked := asked + [Period5];
    match ib(Period5) {
      case Rows(got) =>
        if got != [] {
          return Got(got, true), asked;
        }
      case Broken(m) => return Died(m), asked;
      case Rejected(why) =>
        return Failed(if primary.Some? then primary.value + ALSO_FAILED + Message(why) else Message(why)), asked;
    }
    if primary.Some? {
      return Failed(primary.value), asked;
    }
    return Got([], false), asked;
  }

  // Spans ---------------------------------------------------------------------------

  ghost function DaysOf(rows: seq<Trade>): set<nat> {
    set i | 0 <= i < |rows| && rows[i].day.Some? :: rows[i].day.value
  }

  datatype Span = Span(first: Option<nat>, last: Option<nat>)

  /** `s` is the least and the greatest of `days`, or nothing for none. */
  ghost predicate IsSpan(s: Span, days: set<nat>) {
    if days == {} then s == Span(None, None)
    else s.first == Some(MinOf(days)) && s.last == Some(MaxOf(days))
  }

  predicate Earlier(d: nat, least: Option<nat>) {
    least.None? || d < least.value
  }

  predicate Later(d: nat, greatest: Option<nat>) {
    greatest.None? || d > greatest.value
  }

  function Widen(s: Span, d: nat): Span {
    Span(if Earlier(d, s.first) then Some(d) else s.first, if Later(d, s.last) then Some(d) else s.last)
  }

  lemma WidenIsSpan(s: Span, days: set<nat>, d: nat)
    requires IsSpan(s, days)
    ensures IsSpan(Widen(s, d), days + {d})
  {
    assert d in days + {d};
  }

  lemma DaysOfPrefix(rows: seq<Trade>, n: nat)
    requires n < |rows|
    ensures DaysOf(rows[..n + 1]) == DaysOf(rows[..n]) + (if rows[n].day.Some? then {rows[n].day.value} else {})
  {
    var more, less := rows[..n + 1], rows[..n];
    forall d ensures d in DaysOf(more) <==> d in DaysOf(less) || (rows[n].day.Some? && d == rows[n].day.value) {
      if d in DaysOf(more) {
        var i :| 0 <= i < |more| && more[i].day.Some? && more[i].day.value == d;
        if i < n {
          assert less[i].day.value == d;
        }
      }
      if d in DaysOf(less) {
        var i :| 0 <= i < |less| && less[i].day.Some? && less[i].day.value == d;
        assert more[i].day.value == d;
      }
      if rows[n].day.Some? {
        assert more[n].day.value == rows[n].day.value;
      }
    }
  }

  lemma DaysOfConcat(a: seq<Trade>, b: seq<Trade>)
    ensures DaysOf(a + b) == DaysOf(a) + DaysOf(b)
  {
    forall d ensures d in DaysOf(a + b) <==> d in DaysOf(a) + DaysOf(b) {
      if d in DaysOf(a) {
        var i :| 0 <= i < |a| && a[i].day.Some? && a[i].day.value == d;
        assert (a + b)[i].day.value == d;
      }
      if d in DaysOf(b) {
        var i :| 0 <= i < |b| && b[i].day.Some? && b[i].day.value == d;
        assert (a + b)[|a| + i].day.value == d;
      }
      if d in DaysOf(a + b) {
        var i :| 0 <= i < |a + b| && (a + b)[i].day.Some? && (a + b)[i].day.value == d;
        if i >= |a| {
          assert b[i - |a|].day.value == d;
        }
      }
    }
  }

  function Widened(s: Span, r: Trade): Span {
    if r.day.Some? then Widen(s, r.day.value) else s
  }

  lemma SpanOfPrefix(rows: seq<Trade>, n: nat, s: Span)
    requires n < |rows| && IsSpan(s, DaysOf(rows[..n]))
    ensures IsSpan(Widened(s, rows[n]), DaysOf(rows[..n + 1]))
  {
    DaysOfPrefix(rows, n);
    if rows[n].day.Some? {
      WidenIsSpan(s, DaysOf(rows[..n]), rows[n].day.value);
    } else {
      assert DaysOf(rows[..n + 1]) == DaysOf(rows[..n]);
    }
  }

  function SpanFold(rows: seq<Trade>, n: nat): Span
    requires n <= |rows|
  {
    if n == 0 then Span(None, None) else Widened(SpanFold(rows, n - 1), rows[n - 1])
  }

  lemma {:induction false} SpanFoldIsSpan(rows: seq<Trade>, n: nat)
    requires n <= |rows|
    ensures IsSpan(SpanFold(rows, n), DaysOf(rows[..n]))
  {
    if n > 0 {
      SpanFoldIsSpan(rows, n - 1);
      SpanOfPrefix(rows, n - 1, SpanFold(rows, n - 1));
    }
  }

  /** rows_span: the first and last dated day; rows without a date do not count. */
  method RowsSpan(rows: seq<Trade>) returns (s: Span)
    ensures IsSpan(s, DaysOf(rows))
  {
    var least: Option<nat>, greatest: Option<nat> := None, None;
    for n := 0 to |rows|
      invariant Span(least, greatest) == SpanFold(rows, n)
    {
      if rows[n].day.None? {
        continue;
      }
      var d := rows[n].day.value;
      if least.None? || d < least.value {
        least := Some(d);
      }
      if greatest.None? || d > greatest.value {
        greatest := Some(d);
      }
    }
    SpanFoldIsSpan(rows, |rows|);
    assert rows[..|rows|] == rows;
    s := Span(least, greatest);
  }

  // The run ---------------------------------------------------------------------------

  /** What the per-query loop has gathered. */
  datatype Gathered = Gathered(
    rows: seq<Trade>, errors: seq<string>, counts: seq<int>, spans: seq<Span>, died: Option<string>)

  /** The same without the spans: rows, errors, counts and the exception that ended the loop. */
  type Tally = (seq<Trade>, seq<string>, seq<int>, Option<string>)

  type Ask2 = (nat, Ask)

  function Query(ib: Ask2 -> Answer, i: nat): Ib {
    (a: Ask) => ib((i, a))
  }

  /** A failed query's error, under the query's place, role and id. */
  function QueryError(name: string, m: string): string {
    "Flex query " + name + ": " + m
  }

  function Gather(ib: Ask2 -> Answer, names: seq<string>, dated: bool, allow: bool, n: nat): Tally
    requires n <= |names|
  {
    if n == 0 then ([], [], [], None)
    else
      var before := Gather(ib, names, dated, allow, n - 1);
      if before.3.Some? then before
      else match Chain(Query(ib, n - 1), dated, allow)
        case Got(rows, _) => (before.0 + rows, before.1, before.2 + [|rows|], None)
        case Failed(m) => (before.0, before.1 + [QueryError(names[n - 1], m)], before.2 + [-1], None)
        case Died(m) => (before.0, before.1, before.2, Some(m))
  }

  function SpanOr(a: Span, b: Span): Span {
    Span(if b.first.Some? && Earlier(b.first.value, a.first) then b.first else a.first,
         if b.last.Some? && Later(b.last.value, a.last) then b.last else a.last)
  }

  lemma SpanOrIsUnion(a: Span, b: Span, x: set<nat>, y: set<nat>)
    requires IsSpan(a, x) && IsSpan(b, y)
    ensures IsSpan(SpanOr(a, b), x + y)
  {
    if x == {} {
      assert x + y == y;
    } else if y == {} {
      assert x + y == x;
    } else {
      EndsOfUnion(x, y);
    }
  }

  lemma EndsOfUnion(x: set<nat>, y: set<nat>)
    requires x != {} && y != {}
    ensures MinOf(x + y) == Min(MinOf(x), MinOf(y)) && MaxOf(x + y) == Max(MaxOf(x), MaxOf(y))
  {
    assert MinOf(x) in x + y && MinOf(y) in x + y;
    assert MaxOf(x) in x + y && MaxOf(y) in x + y;
  }

  lemma GotExtends(spans: seq<Span>, rows: seq<Trade>, got: seq<Trade>, s: Span)
    requires IsSpan(Total(spans, |spans|), DaysOf(rows)) && IsSpan(s, DaysOf(got))
    ensures IsSpan(Total(spans + [s], |spans| + 1), DaysOf(rows + got))
  {
    DaysOfConcat(rows, got);
    SpanOrIsUnion(Total(spans, |spans|), s, DaysOf(rows), DaysOf(got));
    TotalPrefix(spans, s);
  }

  /** The query loop: rows, errors, a count and a span per query. */
  method FetchQueries(ib: Ask2 -> Answer, names: seq<string>, dated: bool, allow: bool) returns (g: Gathered)
    ensures (g.rows, g.errors, g.counts, g.died) == Gather(ib, names, dated, allow, |names|)
    ensures g.died.None? ==> |g.counts| == |names| && |g.spans| + |g.errors| == |names|
    ensures g.died.None? ==> IsSpan(Total(g.spans, |g.spans|), DaysOf(g.rows))
  {
    var rows: seq<Trade>, errors: seq<string>, counts: seq<int>, spans: seq<Span> := [], [], [], [];
    for i := 0 to |names|
      invariant (rows, errors, counts, None) == Gather(ib, names, dated, allow, i)
      invariant |counts| == i && |spans| + |errors| == i
      invariant IsSpan(Total(spans, |spans|), DaysOf(rows))
    {
      var r, asked := FetchWithFallback(Query(ib, i), dated, allow);
      match r {
        case Got(got, _) =>
          var s := RowsSpan(got);
          GotExtends(spans, rows, got, s);
          counts := counts + [|got|];
          rows := rows + got;
          spans := spans + [s];
        case Failed(m) =>
          counts := counts + [-1];
          errors := errors + [QueryError(names[i], m)];
        case Died(m) =>
          DeathEnds(ib, names, dated, allow, i + 1);
          return Gathered(rows, errors, counts, spans, Some(m));
      }
    }
    g := Gathered(rows, errors, counts, spans, None);
  }

  /** The aggregation behind it: the span put together from the queries' is that of all the rows. */
  method DataSpan(g: Gathered) returns (span: Span)
    requires IsSpan(Total(g.spans, |g.spans|), DaysOf(g.rows))
    ensures IsSpan(span, DaysOf(g.rows))
  {
    var least: Option<nat>, greatest: Option<nat> := None, None;
    for k := 0 to |g.spans|
      invariant Span(least, greatest) == Total(g.spans, k)
    {
      var s := g.spans[k];
      if s.first.Some? && (least.None? || s.first.value < least.value) {
        least := s.first;
      }
      if s.last.Some? && (greatest.None? || s.last.value > greatest.value) {
        greatest := s.last;
      }
    }
    span := Span(least, greatest);
  }

  function Total(spans: seq<Span>, n: nat): Span
    requires n <= |spans|
  {
    if n == 0 then Span(None, None) else SpanOr(Total(spans, n - 1), spans[n - 1])
  }

  lemma TotalPrefix(spans: seq<Span>, s: Span)
    ensures Total(spans + [s], |spans| + 1) == SpanOr(Total(spans, |spans|), s)
  {
    TotalOfPrefix(spans, s, |spans|);
  }

  lemma {:induction false} TotalOfPrefix(spans: seq<Span>, s: Span, n: nat)
    requires n <= |spans|
    ensures Total(spans + [s], n) == Total(spans, n)
  {
    if n > 0 {
      TotalOfPrefix(spans, s, n - 1);
    }
  }

  lemma {:induction false} DeathEnds(ib: Ask2 -> Answer, names: seq<string>, dated: bool, allow: bool, n: nat)
    requires n <= |names| && Gather(ib, names, dated, allow, n).3.Some?
    ensures Gather(ib, names, dated, allow, |names|) == Gather(ib, names, dated, allow, n)
    decreases |names| - n
  {
    if n < |names| {
      DeathEnds(ib, names, dated, allow, n + 1);
    }
  }

  /** What follows the loop: the upsert, and the statistics read behind it. */
  datatype Stored = Written | NotWritten | Raised(message: string)

  function TradesResult(setup: Option<string>, g: Tally, queries: nat, w: Stored): Result {
    if setup.Some? then Result(No, setup.value, [], 0)
    else if queries == 0 then Result(No, "No Flex credentials for trades", [], 0)
    else if g.3.Some? then Result(No, g.3.value, [], 0)
    else if g.1 != [] && g.0 == [] then Result(No, Retry.Join("; ", g.1), [], 0)
    else if g.0 == [] then Result(Yes, "", g.1, 0)
    else match w
      case NotWritten => Result(No, "Failed to write account_executions.", [], 0)
      case Raised(m) => Result(No, m, [], 0)
      case Written => Result(Yes, "", g.1, |g.0|)
  }

  lemma {:induction false} GatherRecords(ib: Ask2 -> Answer, names: seq<string>, dated: bool, allow: bool, n: nat)
    requires n <= |names|
    ensures var g := Gather(ib, names, dated, allow, n);
      && (forall e :: e in g.1 ==> !Blank(e))
      && (g.3.None? && g.1 == [] <==> forall i: nat :: i < n ==> Chain(Query(ib, i), dated, allow).Got?)
  {
    if n > 0 {
      GatherRecords(ib, names, dated, allow, n - 1);
      var before := Gather(ib, names, dated, allow, n - 1);
      var r := Chain(Query(ib, n - 1), dated, allow);
      if before.3.None? && r.Failed? {
        assert QueryError(names[n - 1], r.message)[0] == 'F';
      }
    }
  }

  /** The rows of a loop that ends are those of the answered queries. */
  lemma {:induction false} GatherRows(ib: Ask2 -> Answer, names: seq<string>, dated: bool, allow: bool, n: nat,
                                      r: Trade)
    requires n <= |names| && Gather(ib, names, dated, allow, n).3.None?
    ensures r in Gather(ib, names, dated, allow, n).0 <==>
      exists i: nat :: i < n && IsAnswered(Query(ib, i), dated, allow) && r in RowsSent(Query(ib, i), dated, allow)
  {
    if n > 0 {
      GatherRows(ib, names, dated, allow, n - 1, r);
      ChainIs(Query(ib, n - 1), dated, allow);
    }
  }

  /** Its counts are those of each query's rows, -1 for a failed one. */
  lemma {:induction false} GatherCounts(ib: Ask2 -> Answer, names: seq<string>, dated: bool, allow: bool, n: nat)
    requires n <= |names| && Gather(ib, names, dated, allow, n).3.None?
    ensures |Gather(ib, names, dated, allow, n).2| == n
    ensures forall i: nat :: i < n ==>
      Gather(ib, names, dated, allow, n).2[i] ==
      if IsAnswered(Query(ib, i), dated, allow) then |RowsSent(Query(ib, i), dated, allow)| else -1
  {
    if n > 0 {
      GatherCounts(ib, names, dated, allow, n - 1);
      ChainIs(Query(ib, n - 1), dated, allow);
    }
  }

  /** The errors of a loop that ends are those of the failed queries, under their names. */
  lemma {:induction false} GatherErrors(ib: Ask2 -> Answer, names: seq<string>, dated: bool, allow: bool, n: nat,
                                        x: string)
    requires n <= |names| && Gather(ib, names, dated, allow, n).3.None?
    ensures forall i: nat :: i < n ==> !Chain(Query(ib, i), dated, allow).Died?
    ensures x in Gather(ib, names, dated, allow, n).1 <==>
      exists i: nat :: i < n && Chain(Query(ib, i), dated, allow).Failed?
                       && x == QueryError(names[i], Chain(Query(ib, i), dated, allow).message)
  {
    if n > 0 {
      GatherErrors(ib, names, dated, allow, n - 1, x);
    }
  }

  /** A loop that an exception ends is ended by that of its first query that breaks. */
  lemma {:induction false} GatherDies(ib: Ask2 -> Answer, names: seq<string>, dated: bool, allow: bool, n: nat)
    requires n <= |names|
    ensures var died := Gather(ib, names, dated, allow, n).3;
      && (died.None? <==> forall i: nat :: i < n ==> !Breaks(Query(ib, i), dated, allow))
      && (died.Some? ==> exists i: nat ::
            && i < n && Breaks(Query(ib, i), dated, allow) && died.value == BreakText(Query(ib, i), dated, allow)
            && forall j: nat :: j < i ==> !Breaks(Query(ib, j), dated, allow))
  {
    if n > 0 {
      GatherDies(ib, names, dated, allow, n - 1);
      ChainIs(Query(ib, n - 1), dated, allow);
    }
  }

  /** What a trades attempt has to come to: no error before the first request, some query configured,
      every query answered, and the rows there were written, with the statistics read behind it. */
  ghost predicate Complete(ib: Ask2 -> Answer, names: seq<string>, dated: bool, allow: bool, setup: Option<string>,
                           w: Stored) {
    && setup.None? && names != []
    && (forall i: nat :: i < |names| ==> IsAnswered(Query(ib, i), dated, allow))
    && (NothingSent(ib, |names|, dated, allow) || w == Written)
  }

  /** IB sent no row at all. */
  ghost predicate NothingSent(ib: Ask2 -> Answer, n: nat, dated: bool, allow: bool) {
    forall i: nat :: i < n && IsAnswered(Query(ib, i), dated, allow) ==> RowsSent(Query(ib, i), dated, allow) == []
  }

  /** A loop that ends has rows exactly when IB sent some. */
  lemma {:induction false} GatherSends(ib: Ask2 -> Answer, names: seq<string>, dated: bool, allow: bool, n: nat)
    requires n <= |names| && Gather(ib, names, dated, allow, n).3.None?
    ensures Gather(ib, names, dated, allow, n).0 == [] <==> NothingSent(ib, n, dated, allow)
  {
    if n > 0 {
      GatherSends(ib, names, dated, allow, n - 1);
      ChainIs(Query(ib, n - 1), dated, allow);
    }
  }

  lemma AnsweredIsGot(ib: Ask2 -> Answer, n: nat, dated: bool, allow: bool)
    ensures (forall i: nat :: i < n ==> IsAnswered(Query(ib, i), dated, allow)) <==>
            forall i: nat :: i < n ==> Chain(Query(ib, i), dated, allow).Got?
  {
    forall i: nat ensures Chain(Query(ib, i), dated, allow).Got? <==> IsAnswered(Query(ib, i), dated, allow) {
      ChainIs(Query(ib, i), dated, allow);
    }
  }

  /** What the handler makes of the run. */
  function Handled(ib: Ask2 -> Answer, names: seq<string>, dated: bool, allow: bool, setup: Option<string>,
                   w: Stored): Verdict {
    RequireOk(TradesResult(setup, Gather(ib, names, dated, allow, |names|), |names|, w), "flex-trades")
  }

  /** Exactly then its handler returns; its errors are labelled, so none goes unseen. */
  lemma DoneExactly(ib: Ask2 -> Answer, names: seq<string>, dated: bool, allow: bool, setup: Option<string>, w: Stored)
    ensures Handled(ib, names, dated, allow, setup, w).Done? <==>
      Complete(ib, names, dated, allow, setup, w)
    ensures Handled(ib, names, dated, allow, setup, w).Done? ==>
      Handled(ib, names, dated, allow, setup, w).inserted == |Gather(ib, names, dated, allow, |names|).0|
  {
    GatherRecords(ib, names, dated, allow, |names|);
    var g := Gather(ib, names, dated, allow, |names|);
    SpokenEmpty(g.1);
    AnsweredIsGot(ib, |names|, dated, allow);
    if g.1 != [] {
      assert g.1[0] in g.1;
    }
    if g.3.None? {
      GatherSends(ib, names, dated, allow, |names|);
    }
  }

  /** Done means complete: a queued attempt returns exactly when it is complete and the freshness row
      could be reached and written as well. */
  lemma DoneMeansComplete(ib: Ask2 -> Answer, names: seq<string>, dated: bool, allow: bool, setup: Option<string>,
                          w: Stored, connectError: Option<string>, recordError: Option<string>)
    ensures Dispatch(connectError, Handled(ib, names, dated, allow, setup, w), recordError).Done? <==>
        connectError.None? && recordError.None? && Complete(ib, names, dated, allow, setup, w)
  {
    DoneExactly(ib, names, dated, allow, setup, w);
  }

  // The window --------------------------------------------------------------------------

  /** The automatic window: `last` is the newest stored trade date, None when there is none. */
  function TradesWindow(last: Option<int>, defaultDays: int, initDays: int, today: int): Window {
    var yesterday := today - 1;
    match last
    case None => Window(yesterday - initDays, yesterday)
    case Some(l) => Window(yesterday - (Max(0, yesterday - l) + defaultDays), yesterday)
  }

  /** It reaches the default days behind the newest stored trade, and is sent as one request, so
      IB's span check refuses it exactly when the outage and the default days exceed 366 days. */
  lemma TradesWindowReach(last: Option<int>, defaultDays: int, initDays: int, today: int)
    ensures var w := TradesWindow(last, defaultDays, initDays, today);
      && w.to == today - 1
      && (last.None? ==> w.from == today - 1 - initDays)
      && (last.Some? ==> w.from == Min(last.value, today - 1) - defaultDays)
      && (SpanAccepted(w) <==>
            (if last.None? then initDays else Max(0, today - 1 - last.value) + defaultDays) <= MAX_FLEX_DAYS)
  {
  }

  /** request_report refuses an over-long window before anything is sent. */
  ghost predicate ChecksSpan(ib: Ask2 -> Answer, w: Window) {
    !SpanAccepted(w) ==> forall i: nat :: ib((i, First)) == Rejected(SpanTooLong)
  }

  // A long outage -----------------------------------------------------------------------

  /** One automatic run; `newest` is the newest stored trade date it leaves if it has rows to write. */
  datatype TradesRun = TradesRun(
    today: int, defaultDays: int, initDays: int, names: seq<string>, allow: bool,
    ib: Ask2 -> Answer, setup: Option<string>, stored: Stored, newest: Option<int>)

  function WindowOf(last: Option<int>, run: TradesRun): Window {
    TradesWindow(last, run.defaultDays, run.initDays, run.today)
  }

  function GatheredBy(run: TradesRun): Tally {
    Gather(run.ib, run.names, true, run.allow, |run.names|)
  }

  function HandledRun(run: TradesRun): Verdict {
    Handled(run.ib, run.names, true, run.allow, run.setup, run.stored)
  }

  /** Without rows nothing is written. */
  function NewestAfter(last: Option<int>, run: TradesRun): Option<int> {
    if run.setup.Some? || GatheredBy(run).3.Some? || GatheredBy(run).0 == [] then last else run.newest
  }

  lemma {:induction false} RefusedGathersNothing(ib: Ask2 -> Answer, names: seq<string>, allow: bool, n: nat)
    requires n <= |names| && forall i: nat :: ib((i, First)) == Rejected(SpanTooLong)
    ensures var g := Gather(ib, names, true, allow, n);
      g.0 == [] && g.3.None? && |g.1| == n
  {
    if n > 0 {
      RefusedGathersNothing(ib, names, allow, n - 1);
      SpanErrorIsFinal();
      assert Chain(Query(ib, n - 1), true, allow).Failed?;
    }
  }

  /** A run whose window is refused is not done and writes nothing, whatever IB would answer. */
  lemma RefusedRunFails(last: Option<int>, run: TradesRun, connectError: Option<string>, recordError: Option<string>)
    requires ChecksSpan(run.ib, WindowOf(last, run)) && !SpanAccepted(WindowOf(last, run))
    ensures NewestAfter(last, run) == last
    ensures Dispatch(connectError, HandledRun(run), recordError).Raise?
  {
    RefusedGathersNothing(run.ib, run.names, run.allow, |run.names|);
    DoneExactly(run.ib, run.names, true, run.allow, run.setup, run.stored);
    SpanErrorIsFinal();
    assert run.names != [] ==> Chain(Query(run.ib, 0), true, run.allow).Failed?;
  }

  /** Runs from one day to later ones, whose days settings do not shrink. */
  ghost predicate TradesHistory(lasts: seq<Option<int>>, runs: seq<TradesRun>) {
    && |lasts| == |runs| + 1
    && (forall i {:trigger runs[i]} :: 0 <= i < |runs| ==>
          lasts[i + 1] == NewestAfter(lasts[i], runs[i]) && ChecksSpan(runs[i].ib, WindowOf(lasts[i], runs[i])))
    && forall i, j :: 0 <= i <= j < |runs| ==>
         && runs[i].today <= runs[j].today
         && runs[i].defaultDays <= runs[j].defaultDays && runs[i].initDays <= runs[j].initDays
  }

  /** Once a window is refused every later one is: no automatic trades run is ever done again, and the
      newest stored trade stays where it is. */
  lemma {:induction false} LongOutageIsNeverDone(lasts: seq<Option<int>>, runs: seq<TradesRun>, n: nat,
                                                 connectError: Option<string>, recordError: Option<string>)
    requires TradesHistory(lasts, runs) && n < |runs| && !SpanAccepted(WindowOf(lasts[0], runs[0]))
    ensures lasts[n] == lasts[0] && !SpanAccepted(WindowOf(lasts[n], runs[n]))
    ensures Dispatch(connectError, HandledRun(runs[n]), recordError).Raise?
  {
    var run := runs[n];
    if n > 0 {
      LongOutageIsNeverDone(lasts, runs, n - 1, connectError, recordError);
      var before := runs[n - 1];
      RefusedRunFails(lasts[n - 1], before, connectError, recordError);
      assert runs[0].today <= run.today && runs[0].defaultDays <= run.defaultDays && runs[0].initDays <= run.initDays;
    }
    RefusedRunFails(lasts[n], run, connectError, recordError);
  }
}
