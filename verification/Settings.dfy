/** orchestration/config_rw.py: partial writes of the range days by writers that interleave. */
module Settings {
  import opened Prelude

  const DEFAULT_RANGE_DAYS := 30
  const DEFAULT_INIT_RANGE_DAYS := 360

  /** The one row of ops_jobs.flex_settings; its CHECKs keep both numbers positive. */
  datatype Row = Row(days: int, init: int)

  /** read_flex_settings and get_flex_range_days: the row, or the defaults while there is none. */
  function Effective(row: Option<Row>): Row {
    match row
    case None => Row(DEFAULT_RANGE_DAYS, DEFAULT_INIT_RANGE_DAYS)
    case Some(r) => Row(Max(1, r.days), Max(1, r.init))
  }

  /** What a writer asks for; at least one half is given. */
  datatype Request = Request(days: Option<int>, init: Option<int>)

  function Clean(v: Option<int>): Option<int> {
    if v.Some? then Some(Max(1, v.value)) else None
  }

  function Or(v: Option<int>, fallback: int): int {
    if v.Some? then v.value else fallback
  }

  /** A writer between its steps: it has to read when a half is missing, then it upserts. */
  datatype Writer = Asking(want: Request) | Ready(want: Request, insert: Row) | Finished

  datatype State = State(row: Option<Row>, writers: seq<Writer>)

  datatype Event = Read(w: nat) | Upsert(w: nat) | Rollback(w: nat)

  predicate Enabled(s: State, e: Event) {
    match e
    case Read(w) => w < |s.writers| && s.writers[w].Asking?
    case Upsert(w) => w < |s.writers| && s.writers[w].Ready?
    case Rollback(w) => w < |s.writers| && !s.writers[w].Finished?
  }

  /** The values the INSERT would take: what was asked, else what is effective right now. */
  function InsertValues(want: Request, current: Row): Row {
    Row(Or(Clean(want.days), current.days), Or(Clean(want.init), current.init))
  }

  /** INSERT ... ON CONFLICT (id) DO UPDATE SET half = COALESCE(asked, half). */
  function Upserted(row: Option<Row>, want: Request, insert: Row): Row {
    match row
    case None => insert
    case Some(r) => Row(Or(Clean(want.days), r.days), Or(Clean(want.init), r.init))
  }

  function Step(s: State, e: Event): State
    requires Enabled(s, e)
  {
    match e
    case Read(w) =>
      var want := s.writers[w].want;
      s.(writers := s.writers[w := Ready(want, InsertValues(want, Effective(s.row)))])
    case Upsert(w) =>
      State(Some(Upserted(s.row, s.writers[w].want, s.writers[w].insert)), s.writers[w := Finished])
    case Rollback(w) => s.(writers := s.writers[w := Finished])
  }

  ghost predicate Run(ss: seq<State>, es: seq<Event>) {
    && |ss| == |es| + 1
    && forall i {:trigger es[i]} :: 0 <= i < |es| ==> Enabled(ss[i], es[i]) && ss[i + 1] == Step(ss[i], es[i])
  }

  predicate Positive(row: Option<Row>) {
    row.Some? ==> row.value.days >= 1 && row.value.init >= 1
  }

  /** Every writer has yet to read, and the row, if there is one, is positive. */
  predicate Start(s: State) {
    Positive(s.row) && forall w :: 0 <= w < |s.writers| ==> s.writers[w].Asking?
  }

  /** The last value committed for the days half in the first `n` steps, else what it was before. */
  function LastDays(ss: seq<State>, es: seq<Event>, n: nat): int
    requires |ss| == |es| + 1 && n <= |es|
  {
    if n == 0 then Effective(ss[0].row).days
    else match es[n - 1]
      case Upsert(w) =>
        if w < |ss[n - 1].writers| && ss[n - 1].writers[w].Ready?
        then Or(Clean(ss[n - 1].writers[w].want.days), LastDays(ss, es, n - 1))
        else LastDays(ss, es, n - 1)
      case _ => LastDays(ss, es, n - 1)
  }

  function LastInit(ss: seq<State>, es: seq<Event>, n: nat): int
    requires |ss| == |es| + 1 && n <= |es|
  {
    if n == 0 then Effective(ss[0].row).init
    else match es[n - 1]
      case Upsert(w) =>
        if w < |ss[n - 1].writers| && ss[n - 1].writers[w].Ready?
        then Or(Clean(ss[n - 1].writers[w].want.init), LastInit(ss, es, n - 1))
        else LastInit(ss, es, n - 1)
      case _ => LastInit(ss, es, n - 1)
  }

  /** While there is no row, every prepared INSERT still carries the defaults for its missing half. */
  predicate Prepared(s: State) {
    s.row.None? ==> forall w :: 0 <= w < |s.writers| && s.writers[w].Ready? ==>
      s.writers[w].insert == InsertValues(s.writers[w].want, Effective(None))
  }

  /** The step commits a value for the half: the days half, or the initial one. */
  predicate Gives(s: State, e: Event, days: bool) {
    && e.Upsert? && e.w < |s.writers| && s.writers[e.w].Ready?
    && if days then s.writers[e.w].want.days.Some? else s.writers[e.w].want.init.Some?
  }

  ghost predicate NeverGiven(ss: seq<State>, es: seq<Event>, n: nat, days: bool) {
    forall i {:trigger es[i]} :: 0 <= i < n && i < |es| && i < |ss| ==> !Gives(ss[i], es[i], days)
  }

  /** Merged: whatever the writers' reads and upserts do to each other, each half reads back as the
      last value committed for it. */
  lemma {:induction false} WritesMerge(ss: seq<State>, es: seq<Event>, n: nat)
    requires Run(ss, es) && Start(ss[0]) && n <= |es|
    ensures Effective(ss[n].row) == Row(LastDays(ss, es, n), LastInit(ss, es, n))
    ensures ss[0].row.None? && NeverGiven(ss, es, n, true) ==> Effective(ss[n].row).days == 30
    ensures ss[0].row.None? && NeverGiven(ss, es, n, false) ==> Effective(ss[n].row).init == 360
    ensures Prepared(ss[n]) && Positive(ss[n].row) && |ss[n].writers| == |ss[0].writers|
  {
    if n > 0 {
      WritesMerge(ss, es, n - 1);
      var e := es[n - 1];
      assert Enabled(ss[n - 1], e) && ss[n] == Step(ss[n - 1], e);
    }
  }

  /** write_flex_config's range half as one writer runs it, with the read it may need. */
  method WriteRangeDays(row: Option<Row>, rowAtUpsert: Option<Row>, days: Option<int>, init: Option<int>)
    returns (written: Option<Row>)
    requires Positive(row) && Positive(rowAtUpsert) && (row.Some? ==> rowAtUpsert.Some?)
    ensures days.None? && init.None? ==> written == rowAtUpsert
    ensures days.Some? || init.Some? ==> written.Some?
    ensures written.Some? && days.Some? ==> written.value.days == Max(1, days.value)
    ensures written.Some? && init.Some? ==> written.value.init == Max(1, init.value)
    ensures written.Some? && days.None? ==> written.value.days == Effective(rowAtUpsert).days
    ensures written.Some? && init.None? ==> written.value.init == Effective(rowAtUpsert).init
  {
    var daysVal := if days.Some? then Some(Max(1, days.value)) else None;
    var initVal := if init.Some? then Some(Max(1, init.value)) else None;
    if daysVal.None? && initVal.None? {
      return rowAtUpsert;
    }
    var insert := Row(Or(daysVal, 0), Or(initVal, 0));
    if daysVal.None? || initVal.None? {
      var current := Effective(row);
      insert := Row(Or(daysVal, current.days), Or(initVal, current.init));
    }
    match rowAtUpsert {
      case None => written := Some(insert);
      case Some(r) => written := Some(Row(Or(daysVal, r.days), Or(initVal, r.init)));
    }
  }
}
