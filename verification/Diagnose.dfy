/** ops/diagnose.py: the self-check's verdicts and actions, and that they agree with the queue. */
module Diagnose {
  import opened Prelude
  import opened Queue
  import opened Catchup
  import Worker
  import Runs

  datatype Verdict = Failed | Missed | Throttled | Waiting | Running | Queued | Okay | Idle

  datatype Action = RunNow(id: nat, enabled: bool) | EnqueueSlot(slot: string, enabled: bool) | FixConfig(slot: string)

  datatype Found = Found(id: nat, job: Job)

  datatype KindInput = KindInput(kind: string, job: Option<Found>, plannedLast: Option<int>, plannedNext: Option<int>)

  datatype CheckInput = CheckInput(now: int, graceSec: int, cooldownUntil: Option<int>, catchupEnabled: bool)

  datatype KindVerdict = KindVerdict(kind: string, verdict: Verdict, nextAt: Option<int>, job: Option<Found>,
    actions: seq<Action>)

  predicate MissedPlan(k: KindInput, inp: CheckInput) {
    && k.plannedLast.Some?
    && inp.graceSec * SECOND <= inp.now - k.plannedLast.value <= DAY
    && (k.job.None? || k.job.value.job.createdAt < k.plannedLast.value)
  }

  function Enqueue(kind: string, inp: CheckInput): Action {
    EnqueueSlot(kind, inp.cooldownUntil.None? || inp.cooldownUntil.value <= inp.now)
  }

  predicate Deferred(j: Job, now: int) {
    j.status.Pending? && j.notBefore.Some? && j.notBefore.value > now
  }

  /** The verdict, its time and its actions, status by status. */
  ghost predicate ByTheTable(k: KindInput, inp: CheckInput, r: KindVerdict) {
    var enqueue := [EnqueueSlot(k.kind, inp.cooldownUntil.None? || inp.cooldownUntil.value <= inp.now)];
    && r.kind == k.kind && r.job == k.job
    && (k.job.None? ==>
          && r.actions == enqueue
          && r.verdict == (if MissedPlan(k, inp) then Verdict.Missed else Idle)
          && r.nextAt == (if MissedPlan(k, inp) then None else k.plannedNext))
    && (k.job.Some? ==>
          var j := k.job.value.job;
          var waits := j.notBefore.Some? && j.notBefore.value > inp.now;
          && (j.status.Running? ==> r.verdict == Verdict.Running && r.actions == [] && r.nextAt == None)
          && (j.status.Pending? && !waits ==> r.verdict == Queued && r.actions == [] && r.nextAt == None)
          && (j.status.Pending? && waits ==>
                && r.verdict == (if j.category == Some("throttled") then Throttled else Waiting)
                && r.nextAt == j.notBefore
                && r.actions == [RunNow(k.job.value.id, j.category != Some("throttled"))])
          && (j.status.Failed? ==>
                && r.verdict == Verdict.Failed && r.nextAt == None
                && r.actions == (if j.category == Some("config") then [FixConfig(k.kind)] else enqueue))
          && (j.status.Done? ==>
                && r.verdict == (if MissedPlan(k, inp) then Verdict.Missed else Okay)
                && r.actions == (if MissedPlan(k, inp) then enqueue else [])
                && r.nextAt == (if MissedPlan(k, inp) then None else k.plannedNext)))
  }

  /** assess_kind. "queued" holds exactly when claim_next's filter accepts the newest job; an offered
      run-now names that job and is enabled exactly when run_job_now (without force) accepts it; a
      throttled or waiting kind has its time, and it lies ahead. */
  function AssessKind(k: KindInput, inp: CheckInput): (r: KindVerdict)
    ensures r.verdict.Queued? <==> k.job.Some? && Runnable(k.job.value.job, inp.now)
    ensures forall a :: a in r.actions && a.RunNow? ==>
      k.job.Some? && a.id == k.job.value.id && (a.enabled <==> RunNowAllowed(k.job.value.job, inp.now, false))
    ensures r.verdict.Throttled? || r.verdict.Waiting? ==> r.nextAt.Some? && r.nextAt.value > inp.now
    ensures ByTheTable(k, inp, r)
  {
    if k.job.None? then
      if MissedPlan(k, inp) then KindVerdict(k.kind, Verdict.Missed, None, None, [Enqueue(k.kind, inp)])
      else KindVerdict(k.kind, Idle, k.plannedNext, None, [Enqueue(k.kind, inp)])
    else
      var id, j := k.job.value.id, k.job.value.job;
      match j.status
      case Running => KindVerdict(k.kind, Verdict.Running, None, k.job, [])
      case Pending =>
        if Deferred(j, inp.now) then
          if j.category == Some("throttled")
          then KindVerdict(k.kind, Throttled, j.notBefore, k.job, [RunNow(id, false)])
          else KindVerdict(k.kind, Waiting, j.notBefore, k.job, [RunNow(id, true)])
        else KindVerdict(k.kind, Queued, None, k.job, [])
      case Failed =>
        if j.category == Some("config") then KindVerdict(k.kind, Verdict.Failed, None, k.job, [FixConfig(k.kind)])
        else KindVerdict(k.kind, Verdict.Failed, None, k.job, [Enqueue(k.kind, inp)])
      case Done =>
        if MissedPlan(k, inp) then KindVerdict(k.kind, Verdict.Missed, None, k.job, [Enqueue(k.kind, inp)])
        else KindVerdict(k.kind, Okay, k.plannedNext, k.job, [])
  }

  // The same snapshot -----------------------------------------------------------------

  /** SELECT DISTINCT ON (kind) ... ORDER BY kind, id DESC. */
  ghost predicate IsNewest(t: Table, kind: string, job: Option<Found>) {
    match job
    case None => forall i :: i in t ==> t[i].kind != kind
    case Some(f) =>
      && f.id in t && t[f.id] == f.job && f.job.kind == kind
      && forall i :: i in t && t[i].kind == kind ==> i <= f.id
  }

  /** `k` and `inp` are what collect_check_input reads for a slot of queue `t`. */
  ghost predicate Reads(s: Schedule, t: Table, k: KindInput, inp: CheckInput) {
    k.kind in SLOTS && IsNewest(t, k.kind, k.job) && k.plannedLast == PlannedLast(s, k.kind, inp.now)
    && PlansReadable(s) && inp.graceSec == GraceSec(s.grace)
  }

  lemma NewestIsLatest(t: Table, kind: string, f: Found, since: int)
    requires Runs.IdsOrdered(t) && IsNewest(t, kind, Some(f))
    ensures CreatedSince(t, kind, since) <==> f.job.createdAt >= since
  {
    if CreatedSince(t, kind, since) {
      var i :| i in t && t[i].kind == kind && t[i].createdAt >= since;
      assert i <= f.id;
    }
  }

  /** "missed" holds exactly when the catch-up would list the slot and its newest job is absent or
      done: the two never contradict each other on a slot nothing is being done about. */
  lemma MissedAgreesWithCatchup(s: Schedule, t: Table, k: KindInput, inp: CheckInput)
    requires Reads(s, t, k, inp) && Runs.IdsOrdered(t)
    ensures AssessKind(k, inp).verdict.Missed? <==>
      IsMissed(s, t, k.kind, inp.now) && (k.job.None? || k.job.value.job.status.Done?)
  {
    var planned := PlannedLast(s, k.kind, inp.now);
    if planned.Some? {
      if k.job.Some? {
        NewestIsLatest(t, k.kind, k.job.value, planned.value);
      } else {
        assert !CreatedSince(t, k.kind, planned.value);
      }
    }
  }

  /** On a reachable queue the order of ids is what its inserts made it: the two agree as long as no
      insert began before an earlier row was created. */
  lemma ReachableCheckAgrees(c: Worker.Config, ws: seq<Worker.World>, es: seq<Worker.Event>, n: nat, k: KindInput,
                             inp: CheckInput)
    requires Worker.GoodConfig(c) && Runs.Run(c, ws, es) && Worker.Init(ws[0]) && n < |ws|
    requires inp.now == ws[n].now && Reads(c.schedule, ws[n].rows, k, inp)
    requires forall m {:trigger es[m]} :: 0 <= m < n ==> Runs.InsertsInOrder(ws[m], es[m], ws[m + 1])
    ensures AssessKind(k, inp).verdict.Missed? <==>
      IsMissed(c.schedule, ws[n].rows, k.kind, inp.now) && (k.job.None? || k.job.value.job.status.Done?)
    ensures AssessKind(k, inp).verdict.Waiting? ==>
      Worker.Enabled(c, ws[n], Worker.RunNowCheck(k.job.value.id, false))
  {
    Runs.IdsStayOrdered(c, ws, es, n);
    MissedAgreesWithCatchup(c.schedule, ws[n].rows, k, inp);
  }

  /** On any queue at all a slot the catch-up lists is never overlooked here, and the check alone says
      missed exactly when an older id carries the newer time: the newest id is a done job from before
      an overdue fire and some other job came since. */
  lemma OverlapParts(s: Schedule, t: Table, k: KindInput, inp: CheckInput)
    requires Reads(s, t, k, inp)
    ensures IsMissed(s, t, k.kind, inp.now) && (k.job.None? || k.job.value.job.status.Done?) ==>
      AssessKind(k, inp).verdict.Missed?
    ensures AssessKind(k, inp).verdict.Missed? && !IsMissed(s, t, k.kind, inp.now) <==>
      && k.plannedLast.Some? && Overdue(s, k.plannedLast.value, inp.now)
      && k.job.Some? && k.job.value.job.status.Done? && k.job.value.job.createdAt < k.plannedLast.value
      && CreatedSince(t, k.kind, k.plannedLast.value)
  {
    if k.job.Some? && IsMissed(s, t, k.kind, inp.now) {
      assert t[k.job.value.id].kind == k.kind;
    }
  }

  // The overall answer ------------------------------------------------------------------

  const VERDICT_ORDER: seq<Verdict> :=
    [Verdict.Failed, Verdict.Missed, Throttled, Waiting, Verdict.Running, Queued, Okay, Idle]

  function Rank(v: Verdict): nat {
    match v
    case Failed => 0
    case Missed => 1
    case Throttled => 2
    case Waiting => 3
    case Running => 4
    case Queued => 5
    case Okay => 6
    case Idle => 7
  }

  /** _worst; None is "unknown", the answer for no verdicts at all. */
  method Worst(verdicts: seq<Verdict>) returns (worst: Option<Verdict>)
    ensures worst.None? <==> verdicts == []
    ensures worst.Some? ==> worst.value in verdicts && forall v :: v in verdicts ==> Rank(worst.value) <= Rank(v)
  {
    assert verdicts != [] ==> exists v :: v in verdicts by {
      if verdicts != [] {
        assert verdicts[0] in verdicts;
      }
    }
    for i := 0 to |VERDICT_ORDER|
      invariant forall j :: 0 <= j < i ==> VERDICT_ORDER[j] !in verdicts
    {
      if VERDICT_ORDER[i] in verdicts {
        assert forall v :: v in verdicts ==> VERDICT_ORDER[Rank(v)] == v;
        return Some(VERDICT_ORDER[i]);
      }
    }
    assert forall v :: v in verdicts ==> VERDICT_ORDER[Rank(v)] == v;
    return None;
  }

  /** The overall verdict; `Attention` is ok or idle with a failed check. */
  datatype Overall = Is(v: Verdict) | Attention | Unknown

  datatype NextStep =
    | FixThenEnqueue(kind: string)
    | EnqueueAgain(kind: string)
    | EnqueueNow(kind: string, orWait: bool)
    | DoNothingUntil(at: Option<int>)
    | RetriesAt(kind: string, at: Option<int>)
    | InFlight
    | NextPlanned(earliest: int)
    | Nothing
    | KeyError  // a lookup of a verdict that no kind has

  /** `first[verdict]`: the first kind with that verdict. */
  function First(vs: seq<KindVerdict>, v: Verdict): Option<KindVerdict> {
    if vs == [] then None else if vs[0].verdict == v then Some(vs[0]) else First(vs[1..], v)
  }

  lemma {:induction false} FirstFinds(vs: seq<KindVerdict>, v: Verdict)
    ensures First(vs, v).Some? <==> exists k :: k in vs && k.verdict == v
    ensures First(vs, v).Some? ==> IsFirst(vs, v, First(vs, v).value)
  {
    if vs != [] {
      FirstFinds(vs[1..], v);
      if vs[0].verdict == v {
        assert vs[0] in vs;
      } else if First(vs, v).Some? {
        var k := First(vs, v).value;
        var i :| 0 <= i < |vs[1..]| && vs[1..][i] == k && forall j :: 0 <= j < i ==> vs[1..][j].verdict != v;
        assert vs[i + 1] == k;
        assert forall j :: 0 <= j < i + 1 ==> vs[j].verdict != v by {
          forall j | 0 <= j < i + 1 ensures vs[j].verdict != v {
            assert j == 0 || vs[j] == vs[1..][j - 1];
          }
        }
      }
    }
  }

  /** `k` is the first kind with the verdict. */
  ghost predicate IsFirst(vs: seq<KindVerdict>, v: Verdict, k: KindVerdict) {
    exists i :: 0 <= i < |vs| && vs[i] == k && k.verdict == v && forall j :: 0 <= j < i ==> vs[j].verdict != v
  }

  function Soonest(vs: seq<KindVerdict>): Option<int> {
    if vs == [] then None
    else
      var rest := Soonest(vs[1..]);
      if vs[0].nextAt.None? then rest
      else if rest.None? || vs[0].nextAt.value < rest.value then vs[0].nextAt else rest
  }

  function Step(overall: Overall, vs: seq<KindVerdict>, inp: CheckInput): NextStep {
    match overall
    case Is(Failed) =>
      (match First(vs, Verdict.Failed)
       case None => KeyError
       case Some(k) =>
         if NeedsConfig(k) then FixThenEnqueue(k.kind) else EnqueueAgain(k.kind))
    case Is(Missed) =>
      (match First(vs, Verdict.Missed) case None => KeyError case Some(k) => EnqueueNow(k.kind, inp.catchupEnabled))
    case Is(Throttled) =>
      (match First(vs, Throttled) case None => KeyError case Some(k) => DoNothingUntil(k.nextAt))
    case Is(Waiting) =>
      (match First(vs, Waiting) case None => KeyError case Some(k) => RetriesAt(k.kind, k.nextAt))
    case Is(Running) => InFlight
    case Is(Queued) => InFlight
    case _ =>
      (match Soonest(vs) case None => Nothing case Some(at) => NextPlanned(at))
  }

  function VerdictsOf(vs: seq<KindVerdict>): seq<Verdict> {
    seq(|vs|, i requires 0 <= i < |vs| => vs[i].verdict)
  }

  function Assessed(kinds: seq<KindInput>, inp: CheckInput): seq<KindVerdict> {
    seq(|kinds|, i requires 0 <= i < |kinds| => AssessKind(kinds[i], inp))
  }

  /** The step speaks of a kind that has the overall verdict, with the time that kind has. */
  ghost predicate Fits(step: NextStep, overall: Overall, vs: seq<KindVerdict>, inp: CheckInput) {
    match step
    case KeyError => false
    case FixThenEnqueue(kind) =>
      overall == Is(Verdict.Failed) && exists k :: IsFirst(vs, Verdict.Failed, k) && k.kind == kind && NeedsConfig(k)
    case EnqueueAgain(kind) =>
      overall == Is(Verdict.Failed) && exists k :: IsFirst(vs, Verdict.Failed, k) && k.kind == kind && !NeedsConfig(k)
    case EnqueueNow(kind, orWait) =>
      && overall == Is(Verdict.Missed) && orWait == inp.catchupEnabled
      && exists k :: IsFirst(vs, Verdict.Missed, k) && k.kind == kind
    case DoNothingUntil(at) =>
      && overall == Is(Throttled) && at.Some? && at.value > inp.now
      && exists k :: IsFirst(vs, Throttled, k) && k.nextAt == at
    case RetriesAt(kind, at) =>
      && overall == Is(Waiting) && at.Some? && at.value > inp.now
      && exists k :: IsFirst(vs, Waiting, k) && k.kind == kind && k.nextAt == at
    case InFlight => overall == Is(Verdict.Running) || overall == Is(Queued)
    case NextPlanned(at) =>
      && Settled(overall)
      && (exists k :: k in vs && k.nextAt == Some(at))
      && forall k :: k in vs && k.nextAt.Some? ==> at <= k.nextAt.value
    case Nothing => Settled(overall) && forall k :: k in vs ==> k.nextAt.None?
  }

  predicate NeedsConfig(k: KindVerdict) {
    k.job.Some? && k.job.value.job.category == Some("config")
  }

  predicate Settled(overall: Overall) {
    overall in {Attention, Unknown, Is(Okay), Is(Idle)}
  }

  lemma {:induction false} SoonestIsLeast(vs: seq<KindVerdict>)
    ensures Soonest(vs).None? <==> forall k :: k in vs ==> k.nextAt.None?
    ensures Soonest(vs).Some? ==>
      && (exists k :: k in vs && k.nextAt == Soonest(vs))
      && forall k :: k in vs && k.nextAt.Some? ==> Soonest(vs).value <= k.nextAt.value
  {
    if vs != [] {
      SoonestIsLeast(vs[1..]);
      assert vs[0] in vs;
      assert forall k :: k in vs <==> k == vs[0] || k in vs[1..];
    }
  }

  ghost predicate Timed(vs: seq<KindVerdict>, now: int) {
    forall k :: k in vs && (k.verdict.Throttled? || k.verdict.Waiting?) ==> k.nextAt.Some? && k.nextAt.value > now
  }

  /** `overall` is the worst of `vs`, or attention in place of ok or idle. */
  ghost predicate IsOverall(overall: Overall, vs: seq<KindVerdict>, checksOk: bool) {
    match overall
    case Unknown => vs == []
    case Is(v) =>
      && (exists k :: k in vs && k.verdict == v)
      && (forall k :: k in vs ==> Rank(v) <= Rank(k.verdict))
      && (v.Okay? || v.Idle? ==> checksOk)
    case Attention => vs != [] && !checksOk && forall k :: k in vs ==> k.verdict.Okay? || k.verdict.Idle?
  }

  predicate Has(vs: seq<KindVerdict>, v: Verdict) {
    exists i :: 0 <= i < |vs| && vs[i].verdict == v
  }

  /** The order of urgency in words: failed before missed before throttled before waiting before running
      before queued before ok. */
  ghost predicate MostUrgent(overall: Overall, vs: seq<KindVerdict>) {
    overall.Is? ==>
      match overall.v
      case Failed => true
      case Missed => !Has(vs, Verdict.Failed)
      case Throttled => !Has(vs, Verdict.Failed) && !Has(vs, Verdict.Missed)
      case Waiting => !Has(vs, Verdict.Failed) && !Has(vs, Verdict.Missed) && !Has(vs, Throttled)
      case Running =>
        !Has(vs, Verdict.Failed) && !Has(vs, Verdict.Missed) && !Has(vs, Throttled) && !Has(vs, Waiting)
      case Queued =>
        && !Has(vs, Verdict.Failed) && !Has(vs, Verdict.Missed) && !Has(vs, Throttled) && !Has(vs, Waiting)
        && !Has(vs, Verdict.Running)
      case _ => forall i :: 0 <= i < |vs| ==>
        vs[i].verdict in {Okay, Idle} && (overall.v == Idle ==> vs[i].verdict == Idle)
  }

  /** The next step always finds the kind it names. */
  lemma NextStepFits(overall: Overall, vs: seq<KindVerdict>, inp: CheckInput, checksOk: bool)
    requires IsOverall(overall, vs, checksOk) && Timed(vs, inp.now)
    ensures Fits(Step(overall, vs, inp), overall, vs, inp)
  {
    SoonestIsLeast(vs);
    if overall.Is? {
      FirstFinds(vs, overall.v);
    }
  }

  function OverallOf(worst: Option<Verdict>, checksOk: bool): Overall {
    match worst
    case None => Unknown
    case Some(v) => if (v.Okay? || v.Idle?) && !checksOk then Attention else Is(v)
  }

  lemma WorstIsOverall(vs: seq<KindVerdict>, worst: Option<Verdict>, checksOk: bool)
    requires worst.None? <==> VerdictsOf(vs) == []
    requires worst.Some? ==>
      && worst.value in VerdictsOf(vs)
      && forall v :: v in VerdictsOf(vs) ==> Rank(worst.value) <= Rank(v)
    ensures IsOverall(OverallOf(worst, checksOk), vs, checksOk)
    ensures MostUrgent(OverallOf(worst, checksOk), vs)
  {
    if worst.Some? {
      var i :| 0 <= i < |vs| && VerdictsOf(vs)[i] == worst.value;
      assert vs[i] in vs && vs[i].verdict == worst.value;
      forall k | k in vs ensures Rank(worst.value) <= Rank(k.verdict) {
        var j :| 0 <= j < |vs| && vs[j] == k;
        assert VerdictsOf(vs)[j] == k.verdict;
      }
    }
  }

  /** diagnose: the overall verdict is the worst kind's, and the next step speaks of it. */
  method Diagnose(kinds: seq<KindInput>, inp: CheckInput, checksOk: bool) returns (overall: Overall, step: NextStep)
    ensures IsOverall(overall, Assessed(kinds, inp), checksOk)
    ensures MostUrgent(overall, Assessed(kinds, inp))
    ensures Fits(step, overall, Assessed(kinds, inp), inp)
  {
    var vs := Assessed(kinds, inp);
    var worst := Worst(VerdictsOf(vs));
    overall := OverallOf(worst, checksOk);
    step := Step(overall, vs, inp);
    WorstIsOverall(vs, worst, checksOk);
    NextStepFits(overall, vs, inp, checksOk);
  }
}
