/** From IB's refusals to the category of a failed attempt: what _require_ok raises when queries fail. */
module Refusals {
  import opened Prelude
  import opened Retry
  import opened Handlers
  import opened FlexClient
  import CashFetch
  import Trades

  /** The category is the worst of the refusals in `ms`. */
  ghost predicate WorstOf(d: DigitTable, category: Category, ms: set<string>) {
    && (exists m :: m in ms && Classify(d, m) == category)
    && forall m :: m in ms ==> Rank(category) <= Rank(Classify(d, m))
  }

  lemma SameRank(a: Category, b: Category)
    requires Rank(a) == Rank(b)
    ensures a == b
  {
  }

  lemma CashJoinIsMute()
    ensures Mute("fallback query-default failed")
  {
  }

  lemma TradesJoinIsMute()
    ensures Mute(Trades.IN_BETWEEN)
  {
    assert Mute("fallback query-default/") && Mute("period=5 also failed");
  }

  /** Two refusals put together by a fallback chain have the worse category of the two. */
  lemma JoinedRefusals(d: DigitTable, a: string, between: string, b: string)
    requires Mute(between)
    ensures Classify(d, a + "; " + between + ": " + b) == Worse(Classify(d, a), Classify(d, b))
  {
    MuteIsUnknown(d, between);
    ClassifyAcrossSeam(d, between, ": ", b);
    ClassifyAcrossSeam(d, a, "; ", between + ": " + b);
    assert a + "; " + between + ": " + b == a + "; " + (between + ": " + b);
  }

  // Cash ----------------------------------------------------------------------------------

  /** The refusals that leave chunk (e, c) without an answer. */
  function CashRefusals(ib: CashFetch.Ib, f: CashFetch.Form, e: nat, c: nat): set<string> {
    if CashFetch.IsAnswered(ib, f, e, c) || CashFetch.Breaks(ib, f, e, c) then {}
    else if CashFetch.Widens(ib, f, e, c)
    then {Message(ib(CashFetch.Request(e, c, false)).why), Message(ib(CashFetch.Request(e, c, true)).why)}
    else {Message(ib(CashFetch.Request(e, c, false)).why)}
  }

  /** Those of the whole run. */
  ghost function AllCashRefusals(ib: CashFetch.Ib, f: CashFetch.Form, entries: nat): set<string> {
    set e: nat, c: nat, m | 0 <= e < entries && 0 <= c < |f.spans| && m in CashRefusals(ib, f, e, c) :: m
  }

  /** Dates in digits, as the code writes them. */
  predicate Dates(f: CashFetch.Form) {
    forall c :: 0 <= c < |f.spans| ==> IsDate(f.spans[c].from) && IsDate(f.spans[c].to)
  }

  predicate IsDate(s: string) {
    forall k :: 0 <= k < |s| ==> '0' <= s[k] <= '9'
  }

  lemma ChunkCategory(d: DigitTable, ib: CashFetch.Ib, f: CashFetch.Form, e: nat, c: nat)
    requires !CashFetch.IsAnswered(ib, f, e, c) && !CashFetch.Breaks(ib, f, e, c)
    ensures WorstOf(d, Classify(d, CashFetch.FailureText(ib, f, e, c)), CashRefusals(ib, f, e, c))
  {
    if CashFetch.Widens(ib, f, e, c) {
      var first, second := Message(ib(CashFetch.Request(e, c, false)).why),
        Message(ib(CashFetch.Request(e, c, true)).why);
      CashJoinIsMute();
      JoinedRefusals(d, first, "fallback query-default failed", second);
      FailureTextIs(first, second);
      TwoRefusals(d, first, second);
    }
  }

  lemma FailureTextIs(first: string, second: string)
    ensures first + "; fallback query-default failed: " + second ==
      first + "; " + "fallback query-default failed" + ": " + second
  {
    assert "; fallback query-default failed: " == "; " + "fallback query-default failed" + ": ";
  }

  lemma TwoRefusals(d: DigitTable, first: string, second: string)
    ensures WorstOf(d, Worse(Classify(d, first), Classify(d, second)), {first, second})
  {
    assert first in {first, second} && second in {first, second};
  }

  /** The dates in front of an error say nothing. */
  lemma LabelSaysNothing(d: DigitTable, f: CashFetch.Form, c: nat, text: string)
    requires Dates(f) && c < |f.spans|
    ensures Classify(d, CashFetch.ErrorText(f, c, text)) == Classify(d, text)
  {
    var span := f.spans[c].from + ".." + f.spans[c].to;
    assert Mute(f.spans[c].from) && Mute("..") && Mute(f.spans[c].to);
    MuteIsUnknown(d, span);
    ClassifyAcrossSeam(d, span, ": ", text);
  }

  lemma ErrorCategory(d: DigitTable, ib: CashFetch.Ib, f: CashFetch.Form, e: nat, c: nat)
    requires Dates(f) && c < |f.spans| && !CashFetch.IsAnswered(ib, f, e, c) && !CashFetch.Breaks(ib, f, e, c)
    ensures WorstOf(d, Classify(d, CashFetch.ErrorText(f, c, CashFetch.FailureText(ib, f, e, c))),
      CashRefusals(ib, f, e, c))
  {
    ChunkCategory(d, ib, f, e, c);
    LabelSaysNothing(d, f, c, CashFetch.FailureText(ib, f, e, c));
  }

  /** Every error on record is of a failed chunk, and every failed chunk's error is on record. */
  lemma ErrorsAre(ib: CashFetch.Ib, f: CashFetch.Form, entries: nat, x: string)
    requires CashFetch.AfterEntries(ib, f, entries).died.None?
    ensures x in CashFetch.AfterEntries(ib, f, entries).errors <==>
      exists e: nat, c: nat {:trigger CashFetch.Breaks(ib, f, e, c)} ::
        && e < entries && c < |f.spans| && !CashFetch.IsAnswered(ib, f, e, c) && !CashFetch.Breaks(ib, f, e, c)
        && x == CashFetch.ErrorText(f, c, CashFetch.FailureText(ib, f, e, c))
  {
    CashFetch.EntriesRecorded(ib, f, entries, entries);
    var s := CashFetch.AfterEntries(ib, f, entries);
    if x in s.errors {
      assert CashFetch.Asked(ib, f, entries, x);
      var e: nat, c: nat :| e < entries && c < |f.spans| && CashFetch.ChunkReply(ib, f, e, c).Failed?
        && CashFetch.ChunkReply(ib, f, e, c).text != ""
        && x == CashFetch.ErrorText(f, c, CashFetch.ChunkReply(ib, f, e, c).text);
      CashFetch.ChunkReplyIs(ib, f, e, c);
      assert !CashFetch.Breaks(ib, f, e, c);
    }
    forall e: nat, c: nat | e < entries && c < |f.spans| && !CashFetch.IsAnswered(ib, f, e, c) &&
      !CashFetch.Breaks(ib, f, e, c)
      ensures CashFetch.ErrorText(f, c, CashFetch.FailureText(ib, f, e, c)) in s.errors
    {
      CashFetch.ChunkReplyIs(ib, f, e, c);
      CashFetch.FailureSpeaks(ib, f, e, c);
      assert CashFetch.Recorded(f, s, c, CashFetch.ChunkReply(ib, f, e, c));
    }
  }

  /** The errors together have the worst category of all the run's refusals. */
  lemma ErrorsCategory(d: DigitTable, ib: CashFetch.Ib, f: CashFetch.Form, entries: nat)
    requires Dates(f) && CashFetch.AfterEntries(ib, f, entries).died.None? &&
      CashFetch.AfterEntries(ib, f, entries).errors != []
    ensures WorstOf(d, Summary(d, CashFetch.AfterEntries(ib, f, entries).errors), AllCashRefusals(ib, f, entries))
  {
    var errors := CashFetch.AfterEntries(ib, f, entries).errors;
    var category := Summary(d, errors);
    SummaryBounds(d, errors);
    var x :| x in errors && Classify(d, x) == category;
    ErrorsAre(ib, f, entries, x);
    var e: nat, c: nat :|
      && e < entries && c < |f.spans| && !CashFetch.IsAnswered(ib, f, e, c) && !CashFetch.Breaks(ib, f, e, c)
      && x == CashFetch.ErrorText(f, c, CashFetch.FailureText(ib, f, e, c));
    ErrorCategory(d, ib, f, e, c);
    var m :| m in CashRefusals(ib, f, e, c) && Classify(d, m) == category;
    assert m in AllCashRefusals(ib, f, entries);
    forall n | n in AllCashRefusals(ib, f, entries) ensures Rank(category) <= Rank(Classify(d, n)) {
      var e': nat, c': nat :| e' < entries && c' < |f.spans| && n in CashRefusals(ib, f, e', c');
      var y := CashFetch.ErrorText(f, c', CashFetch.FailureText(ib, f, e', c'));
      ErrorCategory(d, ib, f, e', c');
      ErrorsAre(ib, f, entries, y);
      assert !CashFetch.Breaks(ib, f, e', c');
      assert y in errors;
    }
  }

  /** A cash attempt that some query of was refused, with nothing else going wrong, raises a text of the
      worst category among IB's refusals, whether or not other queries brought rows. */
  lemma CashFailureCategory(d: DigitTable, ib: CashFetch.Ib, f: CashFetch.Form, entries: nat, w: CashFetch.Written,
                            recordError: Option<string>)
    requires CashFailed(ib, f, entries, w)
    ensures var v := Dispatch(None,
      RequireOk(CashFetch.CashResult(None, entries, CashFetch.AfterEntries(ib, f, entries), w),
                                              "flex-transactions"), recordError);
      v.Raise? && WorstOf(d, Classify(d, v.message), AllCashRefusals(ib, f, entries))
  {
    var s := CashFetch.AfterEntries(ib, f, entries);
    NothingBroke(ib, f, entries);
    CashFetch.EntriesSend(ib, f, entries);
    CashFetch.CleanIsAnswered(ib, f, entries);
    NoErrorIsBlank(ib, f, entries);
    ErrorsCategory(d, ib, f, entries);
    if s.rows == [] {
      JoinIsSummarized(d, s.errors);
      JoinSpeaks(s.errors);
    } else {
      SpokenAll(s.errors);
      PartialFailureCategory(d, CashFetch.CashResult(None, entries, s, w), "flex-transactions");
    }
  }

  /** Some chunk is refused, none breaks, and what rows there are get written. */
  ghost predicate CashFailed(ib: CashFetch.Ib, f: CashFetch.Form, entries: nat, w: CashFetch.Written) {
    && entries > 0 && Dates(f)
    && !CashFetch.AllAnswered(ib, f, entries)
    && (forall e: nat, c: nat :: e < entries && c < |f.spans| ==> !CashFetch.Breaks(ib, f, e, c))
    && (CashFetch.NothingSent(ib, f, entries) || (w.Wrote? && w.written > 0))
  }

  lemma NothingBroke(ib: CashFetch.Ib, f: CashFetch.Form, entries: nat)
    requires forall e: nat, c: nat :: e < entries && c < |f.spans| ==> !CashFetch.Breaks(ib, f, e, c)
    ensures CashFetch.AfterEntries(ib, f, entries).died.None?
  {
    CashFetch.EntriesRecorded(ib, f, entries, entries);
    if CashFetch.AfterEntries(ib, f, entries).died.Some? {
      var e: nat, c: nat :| e < entries && c < |f.spans| && CashFetch.ChunkReply(ib, f, e, c).Died?;
      CashFetch.ChunkReplyIs(ib, f, e, c);
    }
  }

  lemma NoErrorIsBlank(ib: CashFetch.Ib, f: CashFetch.Form, entries: nat)
    requires CashFetch.AfterEntries(ib, f, entries).died.None?
    ensures forall x :: x in CashFetch.AfterEntries(ib, f, entries).errors ==> !Blank(x)
  {
    forall x | x in CashFetch.AfterEntries(ib, f, entries).errors ensures !Blank(x) {
      ErrorsAre(ib, f, entries, x);
      var e: nat, c: nat :|
        && e < entries && c < |f.spans| && !CashFetch.IsAnswered(ib, f, e, c) && !CashFetch.Breaks(ib, f, e, c)
        && x == CashFetch.ErrorText(f, c, CashFetch.FailureText(ib, f, e, c));
      CashFetch.ChunkReplyIs(ib, f, e, c);
      CashFetch.FailureSpeaks(ib, f, e, c);
    }
  }

  lemma {:induction false} SpokenAll(errors: seq<string>)
    requires forall x :: x in errors ==> !Blank(x)
    ensures Spoken(errors) == errors
  {
    if errors != [] {
      SpokenAll(errors[1..]);
      assert errors[0] in errors;
    }
  }

  lemma JoinSpeaks(errors: seq<string>)
    requires errors != [] && forall x :: x in errors ==> !Blank(x)
    ensures Join("; ", errors) != ""
  {
    assert errors[0] in errors;
    assert |Join("; ", errors)| >= |errors[0]| > 0;
  }

  // Trades --------------------------------------------------------------------------------

  /** The refusals in the text a query fails with: the dated request's, else the query default's, and the
      last request's. */
  function QueryRefusals(q: Trades.Ib, dated: bool, allow: bool): set<string> {
    if Trades.IsAnswered(q, dated, allow) || Trades.Breaks(q, dated, allow) then {}
    else if !Trades.Widens(q, dated, allow) then {Message(q(Trades.First).why)}
    else
      (if q(Trades.First).Rejected? then {Message(q(Trades.First).why)}
       else if q(Trades.QueryDefault).Rejected? then {Message(q(Trades.QueryDefault).why)}
       else {})
      + (if q(Trades.Period5).Rejected? then {Message(q(Trades.Period5).why)} else {})
  }

  ghost function AllTradesRefusals(ib: Trades.Ask2 -> Trades.Answer, n: nat, dated: bool, allow: bool): set<string> {
    set i: nat, m | 0 <= i < n && m in QueryRefusals(Trades.Query(ib, i), dated, allow) :: m
  }

  lemma TwoQueryRefusals(d: DigitTable, first: string, last: string)
    ensures WorstOf(d, Classify(d, first + Trades.ALSO_FAILED + last), {first, last})
  {
    TradesJoinIsMute();
    JoinedRefusals(d, first, Trades.IN_BETWEEN, last);
    assert first + Trades.ALSO_FAILED + last == first + "; " + Trades.IN_BETWEEN + ": " + last;
    TwoRefusals(d, first, last);
  }

  lemma OneRefusal(d: DigitTable, m: string)
    ensures WorstOf(d, Classify(d, m), {m})
  {
    assert m in {m};
  }

  lemma QueryCategory(d: DigitTable, q: Trades.Ib, dated: bool, allow: bool)
    requires Trades.Chain(q, dated, allow).Failed?
    ensures WorstOf(d, Classify(d, Trades.Chain(q, dated, allow).message), QueryRefusals(q, dated, allow))
  {
    Trades.ChainIs(q, dated, allow);
    QueryTextIs(q, dated, allow);
    var first, last := Trades.Pending(q), q(Trades.Period5);
    if !Trades.Widens(q, dated, allow) {
      OneRefusal(d, Message(q(Trades.First).why));
    } else if first.Some? && last.Rejected? {
      TwoQueryRefusals(d, first.value, Message(last.why));
    } else if first.Some? {
      OneRefusal(d, first.value);
    } else {
      OneRefusal(d, Message(last.why));
    }
  }

  lemma QueryTextIs(q: Trades.Ib, dated: bool, allow: bool)
    requires Trades.Chain(q, dated, allow).Failed?
    ensures var text := Trades.Chain(q, dated, allow).message;
      var first, last := Trades.Pending(q), q(Trades.Period5);
      if !Trades.Widens(q, dated, allow) then
        q(Trades.First).Rejected? && text == Message(q(Trades.First).why) && QueryRefusals(q, dated, allow) == {text}
      else if first.Some? && last.Rejected? then
        && text == first.value + Trades.ALSO_FAILED + Message(last.why)
        && QueryRefusals(q, dated, allow) == {first.value, Message(last.why)}
      else if first.Some? then text == first.value && QueryRefusals(q, dated, allow) == {first.value}
      else last.Rejected? && text == Message(last.why) && QueryRefusals(q, dated, allow) == {Message(last.why)}
  {
    Trades.ChainIs(q, dated, allow);
  }

  lemma QueryErrorCategory(d: DigitTable, name: string, m: string)
    requires Classify(d, "Flex query " + name) == Unknown
    ensures Classify(d, Trades.QueryError(name, m)) == Classify(d, m)
  {
    ClassifyAcrossSeam(d, "Flex query " + name, ": ", m);
  }

  /** A query's place, role and id say nothing by themselves. */
  ghost predicate NeutralNames(d: DigitTable, names: seq<string>) {
    forall i :: 0 <= i < |names| ==> Classify(d, "Flex query " + names[i]) == Unknown
  }

  lemma GatheredCategory(d: DigitTable, ib: Trades.Ask2 -> Trades.Answer, names: seq<string>, dated: bool, allow: bool)
    requires NeutralNames(d, names) && Trades.Gather(ib, names, dated, allow, |names|).3.None?
    requires Trades.Gather(ib, names, dated, allow, |names|).1 != []
    ensures WorstOf(d, Summary(d, Trades.Gather(ib, names, dated, allow, |names|).1),
                    AllTradesRefusals(ib, |names|, dated, allow))
  {
    var errors := Trades.Gather(ib, names, dated, allow, |names|).1;
    var category := Summary(d, errors);
    SummaryBounds(d, errors);
    var x :| x in errors && Classify(d, x) == category;
    Trades.GatherErrors(ib, names, dated, allow, |names|, x);
    var i: nat :| i < |names| && Trades.Chain(Trades.Query(ib, i), dated, allow).Failed?
      && x == Trades.QueryError(names[i], Trades.Chain(Trades.Query(ib, i), dated, allow).message);
    QueryErrorCategory(d, names[i], Trades.Chain(Trades.Query(ib, i), dated, allow).message);
    QueryCategory(d, Trades.Query(ib, i), dated, allow);
    var m :| m in QueryRefusals(Trades.Query(ib, i), dated, allow) && Classify(d, m) == category;
    assert m in AllTradesRefusals(ib, |names|, dated, allow);
    forall n | n in AllTradesRefusals(ib, |names|, dated, allow) ensures Rank(category) <= Rank(Classify(d, n)) {
      var k: nat :| k < |names| && n in QueryRefusals(Trades.Query(ib, k), dated, allow);
      var y := RefusalIsGathered(d, ib, names, dated, allow, k, n);
    }
  }

  lemma RefusalIsGathered(d: DigitTable, ib: Trades.Ask2 -> Trades.Answer, names: seq<string>, dated: bool, allow: bool,
                          k: nat, m: string) returns (x: string)
    requires NeutralNames(d, names) && Trades.Gather(ib, names, dated, allow, |names|).3.None?
    requires k < |names| && m in QueryRefusals(Trades.Query(ib, k), dated, allow)
    ensures x in Trades.Gather(ib, names, dated, allow, |names|).1 && Rank(Classify(d, x)) <= Rank(Classify(d, m))
  {
    Trades.ChainIs(Trades.Query(ib, k), dated, allow);
    var message := Trades.Chain(Trades.Query(ib, k), dated, allow).message;
    QueryCategory(d, Trades.Query(ib, k), dated, allow);
    QueryErrorCategory(d, names[k], message);
    x := Trades.QueryError(names[k], message);
    Trades.GatherErrors(ib, names, dated, allow, |names|, x);
  }

  /** Some query is refused, none breaks, and what rows there are get written. */
  ghost predicate TradesFailed(d: DigitTable, ib: Trades.Ask2 -> Trades.Answer, names: seq<string>, dated: bool,
                               allow: bool,
                               w: Trades.Stored) {
    && NeutralNames(d, names)
    && (exists i: nat :: i < |names| && !Trades.IsAnswered(Trades.Query(ib, i), dated, allow))
    && (forall i: nat :: i < |names| ==> !Trades.Breaks(Trades.Query(ib, i), dated, allow))
    && (Trades.NothingSent(ib, |names|, dated, allow) || w == Trades.Written)
  }

  lemma {:induction false} NoQueryBroke(ib: Trades.Ask2 -> Trades.Answer, names: seq<string>, dated: bool, allow: bool,
                                        n: nat)
    requires n <= |names| && forall i: nat :: i < |names| ==> !Trades.Breaks(Trades.Query(ib, i), dated, allow)
    ensures Trades.Gather(ib, names, dated, allow, n).3.None?
  {
    if n > 0 {
      NoQueryBroke(ib, names, dated, allow, n - 1);
      Trades.ChainIs(Trades.Query(ib, n - 1), dated, allow);
    }
  }

  /** A trades attempt that some query of was refused, with nothing else going wrong, raises a text of the
      worst category among the refusals reported. */
  lemma TradesFailureCategory(d: DigitTable, ib: Trades.Ask2 -> Trades.Answer, names: seq<string>, dated: bool,
                              allow: bool,
                              w: Trades.Stored, recordError: Option<string>)
    requires TradesFailed(d, ib, names, dated, allow, w)
    ensures var v := Dispatch(None, Trades.Handled(ib, names, dated, allow, None, w), recordError);
      v.Raise? && WorstOf(d, Classify(d, v.message), AllTradesRefusals(ib, |names|, dated, allow))
  {
    NoQueryBroke(ib, names, dated, allow, |names|);
    Trades.GatherRecords(ib, names, dated, allow, |names|);
    Trades.GatherSends(ib, names, dated, allow, |names|);
    Trades.AnsweredIsGot(ib, |names|, dated, allow);
    var g := Trades.Gather(ib, names, dated, allow, |names|);
    assert g.1 != [];
    GatheredCategory(d, ib, names, dated, allow);
    if g.0 == [] {
      JoinIsSummarized(d, g.1);
      JoinSpeaks(g.1);
    } else {
      SpokenAll(g.1);
      PartialFailureCategory(d, Trades.TradesResult(None, g, |names|, w), "flex-trades");
    }
  }

  /** With fallback on, one refusal can go unreported: of a dated request and the query default both
      refused, only the first is kept, so a throttle of the second is taken for what the first said. */
  lemma MiddleRefusalIsDropped(d: DigitTable, q: Trades.Ib, first: Refusal, middle: Refusal)
    requires Contains(Message(first), "[1003]") && q(Trades.First) == Trades.Rejected(first)
    requires q(Trades.QueryDefault) == Trades.Rejected(middle) && q(Trades.Period5) == Trades.Rows([])
    ensures Trades.Chain(q, true, true) == Trades.Failed(Message(first))
  {
  }

  // Other failures ------------------------------------------------------------------------

  lemma NoCredentialsIsConfig(d: DigitTable, rest: string)
    ensures Rank(Classify(d, "No Flex credentials" + rest)) <= Rank(Category.Config)
  {
    assert OccursAt("No Flex credentials", "No Flex credentials" + rest, 0);
    ClassifyByTheTable(d, "No Flex credentials" + rest);
  }

  // What else can go wrong is raised as it is: an error before the first request, missing credentials as a
  // configuration error, an exception of a request, a write that fails.

  lemma CashSetupFailure(d: DigitTable, s: CashFetch.Sink, setup: Option<string>, entries: nat, w: CashFetch.Written)
    ensures var v := RequireOk(CashFetch.CashResult(setup, entries, s, w), "flex-transactions");
      && (setup.Some? && setup.value != "" ==> v == Raise(setup.value))
      && (setup.None? && entries == 0 ==> v.Raise? && Rank(Classify(d, v.message)) <= Rank(Category.Config))
  {
    NoCredentialsIsConfig(d, " for cash_transactions");
    assert "No Flex credentials" + " for cash_transactions" == "No Flex credentials for cash_transactions";
  }

  ghost predicate CashBreaks(ib: CashFetch.Ib, f: CashFetch.Form, entries: nat) {
    exists e: nat, c: nat :: e < entries && c < |f.spans| && CashFetch.Breaks(ib, f, e, c)
  }

  lemma CashBreakIsRaised(ib: CashFetch.Ib, f: CashFetch.Form, entries: nat, w: CashFetch.Written)
    requires entries > 0 && CashBreaks(ib, f, entries)
    ensures var v := RequireOk(CashFetch.CashResult(None, entries, CashFetch.AfterEntries(ib, f, entries), w),
                               "flex-transactions");
      v.Raise? && exists e: nat, c: nat ::
        && e < entries && c < |f.spans| && CashFetch.Breaks(ib, f, e, c)
        && (CashFetch.BreakText(ib, f, e, c) != "" ==> v.message == CashFetch.BreakText(ib, f, e, c))
  {
    CashFetch.EntriesDie(ib, f, entries);
  }

  lemma CashWriteFailure(ib: CashFetch.Ib, f: CashFetch.Form, entries: nat, w: CashFetch.Written)
    requires entries > 0 && !CashBreaks(ib, f, entries) && !CashFetch.NothingSent(ib, f, entries)
    requires w.WriteRaised? && w.message != ""
    ensures RequireOk(CashFetch.CashResult(None, entries, CashFetch.AfterEntries(ib, f, entries), w),
      "flex-transactions")
            == Raise(w.message)
  {
    CashFetch.EntriesDie(ib, f, entries);
    CashFetch.EntriesSend(ib, f, entries);
  }

  lemma TradesSetupFailure(d: DigitTable, ib: Trades.Ask2 -> Trades.Answer, names: seq<string>, dated: bool,
                           allow: bool,
                           setup: Option<string>, w: Trades.Stored)
    ensures var v := Trades.Handled(ib, names, dated, allow, setup, w);
      && (setup.Some? && setup.value != "" ==> v == Raise(setup.value))
      && (setup.None? && names == [] ==> v.Raise? && Rank(Classify(d, v.message)) <= Rank(Category.Config))
  {
    NoCredentialsIsConfig(d, " for trades");
    assert "No Flex credentials" + " for trades" == "No Flex credentials for trades";
  }

  ghost predicate TradesBreak(ib: Trades.Ask2 -> Trades.Answer, n: nat, dated: bool, allow: bool) {
    exists i: nat :: i < n && Trades.Breaks(Trades.Query(ib, i), dated, allow)
  }

  lemma TradesBreakIsRaised(ib: Trades.Ask2 -> Trades.Answer, names: seq<string>, dated: bool, allow: bool,
                            w: Trades.Stored)
    requires TradesBreak(ib, |names|, dated, allow)
    ensures var v := Trades.Handled(ib, names, dated, allow, None, w);
      v.Raise? && exists i: nat ::
        && i < |names| && Trades.Breaks(Trades.Query(ib, i), dated, allow)
        && (Trades.BreakText(Trades.Query(ib, i), dated, allow) != "" ==>
              v.message == Trades.BreakText(Trades.Query(ib, i), dated, allow))
  {
    Trades.GatherDies(ib, names, dated, allow, |names|);
  }

  lemma TradesWriteFailure(ib: Trades.Ask2 -> Trades.Answer, names: seq<string>, dated: bool, allow: bool,
                           w: Trades.Stored)
    requires names != [] && !TradesBreak(ib, |names|, dated, allow) && !Trades.NothingSent(ib, |names|, dated, allow)
    requires w.Raised? && w.message != ""
    ensures Trades.Handled(ib, names, dated, allow, None, w) == Raise(w.message)
  {
    Trades.GatherDies(ib, names, dated, allow, |names|);
    Trades.GatherSends(ib, names, dated, allow, |names|);
  }
}
