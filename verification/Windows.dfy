/** orchestration/transactions.py: the date window of a cash run and its chunks. Dates are day numbers. */
module Windows {
  import opened Prelude

  datatype Window = Window(from: int, to: int)

  const MAX_FLEX_DAYS := 366
  const CHUNK_MAX_SPAN_DAYS := MAX_FLEX_DAYS - 2

  /** request_report's own check of a window, before anything is sent. */
  predicate SpanAccepted(w: Window) {
    w.to - w.from <= MAX_FLEX_DAYS
  }

  predicate Covers(w: Window, day: int) {
    w.from <= day <= w.to
  }

  function Chunks(start: int, end: int, maxSpan: nat): seq<Window>
    decreases end - start
  {
    if start > end then []
    else [Window(start, Min(end, start + maxSpan))] + Chunks(Min(end, start + maxSpan) + 1, end, maxSpan)
  }

  /** What split_window returns; an inverted window is passed on as it is. */
  function Split(start: int, end: int, maxSpan: nat): seq<Window> {
    if end < start then [Window(start, end)] else Chunks(start, end, maxSpan)
  }

  method SplitWindow(start: int, end: int, maxSpan: nat) returns (out: seq<Window>)
    ensures out == Split(start, end, maxSpan)
  {
    if end < start {
      return [Window(start, end)];
    }
    out := [];
    var cur := start;
    while cur <= end
      invariant out + Chunks(cur, end, maxSpan) == Chunks(start, end, maxSpan)
    {
      var chunkEnd := Min(end, cur + maxSpan);
      out := out + [Window(cur, chunkEnd)];
      cur := chunkEnd + 1;
    }
  }

  /** Nonempty windows of bounded span, each beginning the day after the one before ends. */
  predicate Consecutive(chunks: seq<Window>, maxSpan: int) {
    && (forall i :: 0 <= i < |chunks| ==> 0 <= chunks[i].to - chunks[i].from <= maxSpan)
    && forall i :: 0 <= i < |chunks| - 1 ==> chunks[i + 1].from == chunks[i].to + 1
  }

  lemma {:induction false} ChunksAreConsecutive(start: int, end: int, maxSpan: nat)
    requires start <= end
    ensures var chunks := Chunks(start, end, maxSpan);
      chunks != [] && chunks[0].from == start && chunks[|chunks| - 1].to == end && Consecutive(chunks, maxSpan)
    decreases end - start
  {
    var next := Min(end, start + maxSpan) + 1;
    if next <= end {
      ChunksAreConsecutive(next, end, maxSpan);
    }
  }

  /** Later chunks hold later days. */
  lemma {:induction false} ConsecutiveIsOrdered(chunks: seq<Window>, maxSpan: int, i: nat, j: nat)
    requires Consecutive(chunks, maxSpan) && i < j < |chunks|
    ensures chunks[i].to < chunks[j].from
    decreases j
  {
    if i < j - 1 {
      ConsecutiveIsOrdered(chunks, maxSpan, i, j - 1);
    }
  }

  lemma {:induction false} FindChunk(chunks: seq<Window>, maxSpan: int, day: int) returns (i: nat)
    requires Consecutive(chunks, maxSpan) && chunks != []
    requires chunks[0].from <= day <= chunks[|chunks| - 1].to
    ensures i < |chunks| && Covers(chunks[i], day)
    decreases |chunks|
  {
    if day <= chunks[0].to {
      i := 0;
    } else {
      var rest := chunks[1..];
      assert rest[|rest| - 1] == chunks[|chunks| - 1];
      i := FindChunk(rest, maxSpan, day);
      assert rest[i] == chunks[i + 1];
      i := i + 1;
    }
  }

  /** The chunks hold every day of the window exactly once, and no other day. */
  lemma ChunksPartition(start: int, end: int, maxSpan: nat, day: int)
    requires start <= end
    ensures var chunks := Chunks(start, end, maxSpan);
      && (start <= day <= end <==> exists i :: 0 <= i < |chunks| && Covers(chunks[i], day))
      && forall i, j :: 0 <= i < j < |chunks| ==> !(Covers(chunks[i], day) && Covers(chunks[j], day))
  {
    var chunks := Chunks(start, end, maxSpan);
    ChunksAreConsecutive(start, end, maxSpan);
    forall i, j | 0 <= i < j < |chunks| ensures chunks[i].to < chunks[j].from {
      ConsecutiveIsOrdered(chunks, maxSpan, i, j);
    }
    if start <= day <= end {
      var i := FindChunk(chunks, maxSpan, day);
    }
    forall i | 0 <= i < |chunks| ensures start <= chunks[i].from && chunks[i].to <= end {
      assert i == 0 || chunks[0].to < chunks[i].from;
      assert i == |chunks| - 1 || chunks[i].to < chunks[|chunks| - 1].from;
    }
  }

  predicate CoveredBy(cover: seq<Window>, day: int) {
    exists i :: 0 <= i < |cover| && Covers(cover[i], day)
  }

  /** No cover of the window by windows of that span is smaller than split_window's. */
  lemma {:induction false} ChunksAreFewest(start: int, end: int, maxSpan: nat, cover: seq<Window>)
    requires forall i :: 0 <= i < |cover| ==> cover[i].to - cover[i].from <= maxSpan
    requires forall day :: start <= day <= end ==> CoveredBy(cover, day)
    ensures |Chunks(start, end, maxSpan)| <= |cover|
    decreases end - start
  {
    if start <= end {
      assert CoveredBy(cover, start);
      var k :| 0 <= k < |cover| && Covers(cover[k], start);
      var rest := cover[..k] + cover[k + 1..];
      var next := Min(end, start + maxSpan) + 1;
      forall day | next <= day <= end ensures CoveredBy(rest, day) {
        assert CoveredBy(cover, day);
        var i :| 0 <= i < |cover| && Covers(cover[i], day);
        assert i != k;
        var at := if i < k then i else i - 1;
        assert rest[at] == cover[i];
      }
      ChunksAreFewest(next, end, maxSpan, rest);
    }
  }

  /** IB's span check never refuses a chunk. */
  lemma ChunksAreAccepted(start: int, end: int)
    ensures forall w :: w in Split(start, end, CHUNK_MAX_SPAN_DAYS) ==> SpanAccepted(w) && w.to - w.from <= 364
    ensures CHUNK_MAX_SPAN_DAYS == 364 && forall w :: SpanAccepted(w) <==> w.to - w.from <= 366
  {
    if start <= end {
      ChunksAreConsecutive(start, end, CHUNK_MAX_SPAN_DAYS);
    }
  }

  // The window ------------------------------------------------------------------

  ghost function MaxOf(s: set<nat>): (m: nat)
    requires s != {}
    ensures m in s
    ensures forall x :: x in s ==> x <= m
  {
    var x :| x in s;
    var rest := s - {x};
    assert forall y :: y in s ==> y == x || y in rest;
    if rest == {} then x else Max(x, MaxOf(rest))
  }

  ghost function MinOf(s: set<nat>): (m: nat)
    requires s != {}
    ensures m in s
    ensures forall x :: x in s ==> m <= x
  {
    var x :| x in s;
    var rest := s - {x};
    assert forall y :: y in s ==> y == x || y in rest;
    if rest == {} then x else Min(x, MinOf(rest))
  }

  datatype Mode = Init | Incremental

  ghost function WindowStart(lastDates: map<string, nat>, yesterday: int, defaultDays: int, initDays: int): int {
    if lastDates == map[] then yesterday - Max(1, initDays)
    else
      assert lastDates.Values != {} by {
        var a :| a in lastDates;
        assert lastDates[a] in lastDates.Values;
      }
      Min(MinOf(lastDates.Values), yesterday - Max(1, defaultDays))
  }

  /** transactions_window. */
  method TransactionsWindow(lastDates: map<string, nat>, defaultDays: int, initDays: int, today: int)
    returns (start: int, end: int, mode: Mode, days: int)
    ensures end == today - 1 && days == end - start >= 1
    ensures start == WindowStart(lastDates, end, defaultDays, initDays)
    ensures lastDates == map[] ==> start == today - 1 - Max(1, initDays)
    ensures lastDates != map[] ==>
      && start <= today - 1 - Max(1, defaultDays) && (forall a :: a in lastDates ==> start <= lastDates[a])
      && (start == today - 1 - Max(1, defaultDays) || exists a :: a in lastDates && start == lastDates[a])
    ensures mode == if lastDates == map[] then Init else Incremental
  {
    end := today - 1;
    if lastDates == map[] {
      start := end - Max(1, initDays);
      return start, end, Init, end - start;
    }
    var first :| first in lastDates;
    var catchUp := lastDates[first];
    var todo := lastDates.Keys - {first};
    while todo != {}
      invariant todo <= lastDates.Keys
      invariant exists a :: a in lastDates && lastDates[a] == catchUp
      invariant forall a :: a in lastDates && a !in todo ==> catchUp <= lastDates[a]
      decreases todo
    {
      var a :| a in todo;
      todo := todo - {a};
      catchUp := Min(catchUp, lastDates[a]);
    }
    assert catchUp in lastDates.Values;
    start := Min(catchUp, end - Max(1, defaultDays));
    return start, end, Incremental, end - start;
  }

  /** The window reaches back to every account's last stored day, and at least the default days. */
  lemma WindowReachesBack(lastDates: map<string, nat>, yesterday: int, defaultDays: int, initDays: int, account: string)
    requires account in lastDates
    ensures var start := WindowStart(lastDates, yesterday, defaultDays, initDays);
      && start <= lastDates[account]
      && start <= yesterday - Max(1, defaultDays)
      && (start == yesterday - Max(1, defaultDays) || exists a :: a in lastDates && start == lastDates[a])
  {
    assert lastDates[account] in lastDates.Values;
  }
}
