/** api/http_metrics.py: request counters and latency histograms, kept in place.
    Seconds are reals: rounding is not the point here. */
module HttpMetrics {

  // Histograms ------------------------------------------------------------------

  function CountLE(seen: seq<real>, bound: real): nat {
    if seen == [] then 0
    else CountLE(seen[..|seen| - 1], bound) + (if seen[|seen| - 1] <= bound then 1 else 0)
  }

  function Sum(seen: seq<real>): real {
    if seen == [] then 0.0 else Sum(seen[..|seen| - 1]) + seen[|seen| - 1]
  }

  predicate Increasing(bounds: seq<real>) {
    forall i, j :: 0 <= i < j < |bounds| ==> bounds[i] < bounds[j]
  }

  /** The number of `counts` up to and including bucket `i`. */
  function Running(counts: seq<nat>, i: nat): nat
    requires i < |counts|
  {
    counts[i] + if i == 0 then 0 else Running(counts, i - 1)
  }

  /** What the buckets hold: running up to a bound counts the observations at or below it. */
  predicate Tallies(bounds: seq<real>, counts: seq<nat>, seen: seq<real>) {
    |counts| == |bounds| && forall i :: 0 <= i < |bounds| ==> Running(counts, i) == CountLE(seen, bounds[i])
  }

  lemma {:induction false} RunningBump(counts: seq<nat>, at: nat, i: nat)
    requires at < |counts| && i < |counts|
    ensures Running(counts[at := counts[at] + 1], i) == Running(counts, i) + (if at <= i then 1 else 0)
  {
    if i > 0 {
      RunningBump(counts, at, i - 1);
    }
  }

  /** An observation bumps the first bucket that can hold it, none if it is above every bound. */
  lemma BumpTallies(bounds: seq<real>, counts: seq<nat>, seen: seq<real>, s: real, at: nat)
    requires Increasing(bounds) && Tallies(bounds, counts, seen) && at <= |bounds|
    requires forall j :: 0 <= j < at ==> bounds[j] < s
    requires at < |bounds| ==> s <= bounds[at]
    ensures Tallies(bounds, if at < |bounds| then counts[at := counts[at] + 1] else counts, seen + [s])
  {
    assert (seen + [s])[..|seen|] == seen;
    forall i | 0 <= i < |bounds|
      ensures var after := if at < |bounds| then counts[at := counts[at] + 1] else counts;
        Running(after, i) == CountLE(seen + [s], bounds[i])
    {
      if at < |bounds| {
        RunningBump(counts, at, i);
      }
    }
  }

  lemma {:induction false} CountLEMonotone(seen: seq<real>, a: real, b: real)
    requires a <= b
    ensures CountLE(seen, a) <= CountLE(seen, b) <= |seen|
  {
    if seen != [] {
      CountLEMonotone(seen[..|seen| - 1], a, b);
    }
  }

  lemma FreshTallies(bounds: seq<real>)
    ensures Tallies(bounds, seq(|bounds|, _ => 0), [])
  {
    var zeros: seq<nat> := seq(|bounds|, _ => 0);
    forall i | 0 <= i < |bounds| ensures Running(zeros, i) == CountLE([], bounds[i]) {
      ZeroRunning(zeros, i);
    }
  }

  lemma {:induction false} ZeroRunning(zeros: seq<nat>, i: nat)
    requires i < |zeros| && forall k :: 0 <= k < |zeros| ==> zeros[k] == 0
    ensures Running(zeros, i) == 0
  {
    if i > 0 {
      ZeroRunning(zeros, i - 1);
    }
  }

  lemma CountsMonotone(bounds: seq<real>, seen: seq<real>, buckets: seq<nat>)
    requires Increasing(bounds) && |buckets| == |bounds|
    requires forall i :: 0 <= i < |bounds| ==> buckets[i] == CountLE(seen, bounds[i])
    ensures forall i, j :: 0 <= i <= j < |buckets| ==> buckets[i] <= buckets[j]
    ensures forall i :: 0 <= i < |buckets| ==> buckets[i] <= |seen|
  {
    forall i, j | 0 <= i <= j < |buckets| ensures buckets[i] <= buckets[j] <= |seen| {
      CountLEMonotone(seen, bounds[i], bounds[j]);
    }
  }

  type Key = (string, string)

  /** Whose latency a histogram holds: one (handler, method)'s, or everybody's. */
  datatype Owner = One(key: Key) | Everyone

  class Histogram {
    const bounds: seq<real>
    ghost const owner: Owner
    var counts: seq<nat>
    var total: real
    var n: nat
    ghost var seen: seq<real>

    ghost predicate Valid()
      reads this
    {
      Increasing(bounds) && Tallies(bounds, counts, seen) && n == |seen| && total == Sum(seen)
    }

    constructor (bounds: seq<real>, ghost owner: Owner)
      requires Increasing(bounds)
      ensures Valid() && this.bounds == bounds && seen == [] && this.owner == owner
    {
      this.bounds, this.owner := bounds, owner;
      counts, total, n := seq(|bounds|, _ => 0), 0.0, 0;
      seen := [];
      FreshTallies(bounds);
    }

    method Observe(seconds: real)
      requires Valid()
      modifies this
      ensures Valid() && seen == old(seen) + [seconds]
    {
      var i := 0;
      while i < |bounds|
        invariant i <= |bounds| && counts == old(counts)
        invariant forall j :: 0 <= j < i ==> bounds[j] < seconds
      {
        if seconds <= bounds[i] {
          break;
        }
        i := i + 1;
      }
      BumpTallies(bounds, counts, seen, seconds, i);
      if i < |bounds| {
        counts := counts[i := counts[i] + 1];
      }
      assert (seen + [seconds])[..|seen|] == seen;
      total := total + seconds;
      n := n + 1;
      seen := seen + [seconds];
    }

    /** The numbers of `render`: one cumulative count a bound, then the +Inf bucket. */
    method Render() returns (buckets: seq<nat>, inf: nat, sum: real)
      requires Valid()
      ensures |buckets| == |bounds| && forall i :: 0 <= i < |bounds| ==> buckets[i] == CountLE(seen, bounds[i])
      ensures forall i, j :: 0 <= i <= j < |buckets| ==> buckets[i] <= buckets[j]
      ensures inf == |seen| && sum == Sum(seen) && forall i :: 0 <= i < |buckets| ==> buckets[i] <= inf
    {
      buckets := RunningCounts(counts);
      assert forall i :: 0 <= i < |bounds| ==> buckets[i] == Running(counts, i);
      CountsMonotone(bounds, seen, buckets);
      inf, sum := n, total;
    }
  }

  /** The loop of render. */
  method RunningCounts(counts: seq<nat>) returns (buckets: seq<nat>)
    ensures |buckets| == |counts| && forall i :: 0 <= i < |counts| ==> buckets[i] == Running(counts, i)
  {
    buckets := [];
    var running := 0;
    for i := 0 to |counts|
      invariant |buckets| == i && running == if i == 0 then 0 else Running(counts, i - 1)
      invariant forall j :: 0 <= j < i ==> buckets[j] == Running(counts, j)
    {
      running := running + counts[i];
      buckets := buckets + [running];
    }
  }

  // Sums over maps ----------------------------------------------------------------

  ghost function SumMap<K(!new)>(m: map<K, nat>): nat {
    if m == map[] then 0
    else
      assert m.Keys != {};
      var k :| k in m.Keys;
      m[k] + SumMap(m - {k})
  }

  lemma {:induction false} SumMapWithout<K(!new)>(m: map<K, nat>, k: K)
    requires k in m
    ensures SumMap(m) == m[k] + SumMap(m - {k})
    decreases m.Keys
  {
    var x :| x in m.Keys && SumMap(m) == m[x] + SumMap(m - {x});
    if x != k {
      assert (m - {x}).Keys == m.Keys - {x} && (m - {k}).Keys == m.Keys - {k};
      SumMapWithout(m - {x}, k);
      SumMapWithout(m - {k}, x);
      assert m - {x} - {k} == m - {k} - {x};
    }
  }

  function Get<K>(m: map<K, nat>, k: K): nat {
    if k in m then m[k] else 0
  }

  lemma SumMapUpdate<K(!new)>(m: map<K, nat>, k: K, v: nat)
    ensures SumMap(m[k := v]) + Get(m, k) == SumMap(m) + v
  {
    SumMapWithout(m[k := v], k);
    if k in m {
      SumMapWithout(m, k);
      assert m[k := v] - {k} == m - {k};
    } else {
      assert m[k := v] - {k} == m;
    }
  }

  // What was observed ---------------------------------------------------------------

  /** One recorded request: the folded method and the status class. */
  datatype Seen = Seen(handler: string, verb: string, status: nat, seconds: real)

  type RequestKey = (string, string, nat)

  const UNRECORDED := {"/metrics"}
  const UNTIMED := {"/metrics", "/health"}
  const METHODS := {"GET", "HEAD", "POST", "PUT", "PATCH", "DELETE", "OPTIONS"}
  const DURATION_BUCKETS := [0.1, 0.5, 1.0]
  const HIGHR_BUCKETS := [
    0.01, 0.025, 0.05, 0.075, 0.1, 0.25, 0.5, 0.75, 1.0, 1.5, 2.0, 2.5, 3.0, 3.5, 4.0, 4.5, 5.0, 7.5, 10.0, 30.0, 60.0]

  // Where the bounds of DURATION_BUCKETS stand among HIGHR_BUCKETS.
  const FINE_AT: seq<nat> := [4, 6, 8]

  predicate Timed(untimed: set<string>, o: Seen) {
    o.handler !in untimed
  }

  function KeyOf(o: Seen): Key {
    (o.handler, o.verb)
  }

  function RequestKeyOf(o: Seen): RequestKey {
    (o.handler, o.verb, o.status)
  }

  function RequestCounts(h: seq<Seen>): map<RequestKey, nat> {
    if h == [] then map[]
    else
      var m := RequestCounts(h[..|h| - 1]);
      var k := RequestKeyOf(h[|h| - 1]);
      m[k := Get(m, k) + 1]
  }

  function Listed(m: map<Key, seq<real>>, k: Key): seq<real> {
    if k in m then m[k] else []
  }

  /** The timed observations, key by key. */
  function SecondsByKey(untimed: set<string>, h: seq<Seen>): map<Key, seq<real>> {
    if h == [] then map[]
    else
      var m, o := SecondsByKey(untimed, h[..|h| - 1]), h[|h| - 1];
      if Timed(untimed, o) then m[KeyOf(o) := Listed(m, KeyOf(o)) + [o.seconds]] else m
  }

  function AllSeconds(untimed: set<string>, h: seq<Seen>): seq<real> {
    if h == [] then []
    else AllSeconds(untimed, h[..|h| - 1]) + (if Timed(untimed, h[|h| - 1]) then [h[|h| - 1].seconds] else [])
  }

  lemma ListAppend(m: map<Key, seq<real>>, k: Key, s: real)
    ensures k !in m ==> m[k := []][k := [] + [s]] == m[k := Listed(m, k) + [s]]
    ensures k in m ==> Listed(m, k) == m[k]
  {
  }

  /** What one more observation does to every view of the history. */
  lemma OneMore(untimed: set<string>, h: seq<Seen>, o: Seen)
    ensures RequestCounts(h + [o]) == RequestCounts(h)[RequestKeyOf(o) := Get(RequestCounts(h), RequestKeyOf(o)) + 1]
    ensures AllSeconds(untimed, h + [o]) ==
      if Timed(untimed, o) then AllSeconds(untimed, h) + [o.seconds] else AllSeconds(untimed, h)
    ensures var m := SecondsByKey(untimed, h);
      SecondsByKey(untimed, h + [o]) ==
      if Timed(untimed, o) then m[KeyOf(o) := Listed(m, KeyOf(o)) + [o.seconds]] else m
  {
    var more := h + [o];
    assert more[..|more| - 1] == h && more[|more| - 1] == o;
  }

  lemma TellsMore(untimed: set<string>, h: seq<Seen>, o: Seen, r: map<RequestKey, nat>, t: map<Key, seq<real>>,
                  a: seq<real>)
    requires r == RequestCounts(h) && t == SecondsByKey(untimed, h) && a == AllSeconds(untimed, h)
    ensures RequestCounts(h + [o]) == r[(o.handler, o.verb, o.status) := Get(r, (o.handler, o.verb, o.status)) + 1]
    ensures o.handler !in untimed ==>
      SecondsByKey(untimed, h + [o]) == t[(o.handler, o.verb) := Listed(t, (o.handler, o.verb)) + [o.seconds]]
    ensures o.handler !in untimed ==> AllSeconds(untimed, h + [o]) == a + [o.seconds]
    ensures o.handler in untimed ==> SecondsByKey(untimed, h + [o]) == t && AllSeconds(untimed, h + [o]) == a
  {
    OneMore(untimed, h, o);
  }

  ghost function Cumulative(m: map<Key, seq<real>>, bound: real): map<Key, nat> {
    map k | k in m :: CountLE(m[k], bound)
  }

  lemma CountLESnoc(seen: seq<real>, s: real, bound: real)
    ensures CountLE(seen + [s], bound) == CountLE(seen, bound) + (if s <= bound then 1 else 0)
  {
    assert (seen + [s])[..|seen|] == seen;
  }

  lemma CumulativeStep(m: map<Key, seq<real>>, k: Key, s: real, bound: real)
    ensures Cumulative(m[k := Listed(m, k) + [s]], bound) ==
            Cumulative(m, bound)[k := Get(Cumulative(m, bound), k) + (if s <= bound then 1 else 0)]
  {
    CountLESnoc(Listed(m, k), s, bound);
  }

  /** The per-(handler, method) counts at a bound add up to the unlabelled histogram's. */
  lemma {:induction false} CoarseSumsToFine(untimed: set<string>, h: seq<Seen>, bound: real)
    ensures SumMap(Cumulative(SecondsByKey(untimed, h), bound)) == CountLE(AllSeconds(untimed, h), bound)
  {
    if h == [] {
      assert Cumulative(SecondsByKey(untimed, h), bound) == map[];
    } else {
      var before, o := h[..|h| - 1], h[|h| - 1];
      assert h == before + [o];
      CoarseSumsToFine(untimed, before, bound);
      OneMore(untimed, before, o);
      if Timed(untimed, o) {
        var m, k := SecondsByKey(untimed, before), KeyOf(o);
        CumulativeStep(m, k, o.seconds, bound);
        var c := Cumulative(m, bound);
        SumMapUpdate(c, k, Get(c, k) + (if o.seconds <= bound then 1 else 0));
        CountLESnoc(AllSeconds(untimed, before), o.seconds, bound);
      }
    }
  }

  /** The counters of one (handler, method), by status. */
  ghost function ByStatus(m: map<RequestKey, nat>, k: Key): map<nat, nat> {
    map s | s in (set q | q in m && q.0 == k.0 && q.1 == k.1 :: q.2) && (k.0, k.1, s) in m :: m[(k.0, k.1, s)]
  }

  lemma ByStatusUpdate(m: map<RequestKey, nat>, q: RequestKey, v: nat, k: Key)
    ensures ByStatus(m[q := v], k) == if (q.0, q.1) == k then ByStatus(m, k)[q.2 := v] else ByStatus(m, k)
    ensures (q.0, q.1) == k ==> Get(ByStatus(m, k), q.2) == Get(m, q)
  {
    forall s: nat ensures s in ByStatus(m, k) <==> (k.0, k.1, s) in m {
      StatusListed(m, k, s);
    }
    forall s: nat ensures s in ByStatus(m[q := v], k) <==> (k.0, k.1, s) in m[q := v] {
      StatusListed(m[q := v], k, s);
    }
    if (q.0, q.1) == k {
      assert q == (k.0, k.1, q.2);
      assert ByStatus(m[q := v], k) == ByStatus(m, k)[q.2 := v];
    } else {
      assert ByStatus(m[q := v], k) == ByStatus(m, k);
    }
  }

  lemma StatusListed(m: map<RequestKey, nat>, k: Key, s: nat)
    ensures s in ByStatus(m, k) <==> (k.0, k.1, s) in m
  {
    if (k.0, k.1, s) in m {
      var q := (k.0, k.1, s);
      assert q in m && q.0 == k.0 && q.1 == k.1 && q.2 == s;
    }
  }

  /** For a timed handler the request counters, summed over status, equal the histogram's count. */
  lemma {:induction false} RequestsSumToCount(untimed: set<string>, h: seq<Seen>, k: Key)
    requires k.0 !in untimed
    ensures SumMap(ByStatus(RequestCounts(h), k)) == |Listed(SecondsByKey(untimed, h), k)|
  {
    if h == [] {
      assert ByStatus(RequestCounts(h), k) == map[];
    } else {
      var before, o := h[..|h| - 1], h[|h| - 1];
      assert h == before + [o];
      RequestsSumToCount(untimed, before, k);
      OneMore(untimed, before, o);
      var m, q := RequestCounts(before), RequestKeyOf(o);
      ByStatusUpdate(m, q, Get(m, q) + 1, k);
      if KeyOf(o) == k {
        SumMapUpdate(ByStatus(m, k), q.2, Get(m, q) + 1);
      }
    }
  }

  lemma {:induction false} ListedKeysAreTimed(untimed: set<string>, h: seq<Seen>, k: Key)
    requires k in SecondsByKey(untimed, h)
    ensures k.0 !in untimed
  {
    if h != [] && k in SecondsByKey(untimed, h[..|h| - 1]) {
      ListedKeysAreTimed(untimed, h[..|h| - 1], k);
    }
  }

  // The service's metrics ---------------------------------------------------------------

  lemma BucketsIncrease()
    ensures Increasing(DURATION_BUCKETS) && Increasing(HIGHR_BUCKETS)
    ensures DURATION_BUCKETS == [0.1, 0.5, 1.0] && |HIGHR_BUCKETS| == 21 && HIGHR_BUCKETS[20] == 60.0
    ensures DURATION_BUCKETS[0] == HIGHR_BUCKETS[4]
    ensures DURATION_BUCKETS[1] == HIGHR_BUCKETS[6] && DURATION_BUCKETS[2] == HIGHR_BUCKETS[8]
  {
    IncreasingStepwise(HIGHR_BUCKETS);
  }

  lemma IncreasingStepwise(bounds: seq<real>)
    requires forall i :: 0 <= i < |bounds| - 1 ==> bounds[i] < bounds[i + 1]
    ensures Increasing(bounds)
  {
    forall i, j | 0 <= i < j < |bounds| ensures bounds[i] < bounds[j] {
      IncreasingFrom(bounds, i, j);
    }
  }

  lemma {:induction false} IncreasingFrom(bounds: seq<real>, i: nat, j: nat)
    requires forall n :: 0 <= n < |bounds| - 1 ==> bounds[n] < bounds[n + 1]
    requires i < j < |bounds|
    ensures bounds[i] < bounds[j]
  {
    if i + 1 < j {
      IncreasingFrom(bounds, i, j - 1);
    }
  }

  class Metrics {
    const unrecorded: set<string>
    const untimed: set<string>
    const methods: set<string>
    const coarse: seq<real>
    const fine: seq<real>
    var requests: map<RequestKey, nat>
    var duration: map<Key, Histogram>
    var highr: Histogram
    ghost var history: seq<Seen>  // recorded since the last reset
    ghost var times: map<Key, seq<real>>  // its timed observations, key by key
    ghost var all: seq<real>  // and all together
    ghost var Repr: set<Histogram>

    ghost predicate Valid()
      reads this, highr, Repr
    {
      Shaped() && Tells(history) && coarse == DURATION_BUCKETS && fine == HIGHR_BUCKETS
    }

    /** The counters and the ghost views are those of the history `h`. */
    ghost predicate Tells(h: seq<Seen>)
      reads `requests, `times, `all
    {
      requests == RequestCounts(h) && times == SecondsByKey(untimed, h) && all == AllSeconds(untimed, h)
    }

    /** The labelled histogram of `k` holds exactly `seen`. */
    ghost predicate Holds(k: Key, seen: seq<real>)
      requires k in duration
      reads `duration, duration[k]
    {
      duration[k].Valid() && duration[k].bounds == coarse && duration[k].seen == seen && duration[k].owner == One(k)
    }

    /** The histograms hold the timed observations, one histogram a key, none shared. */
    ghost predicate Shaped()
      reads `duration, `highr, `times, `all, `Repr, highr, Repr
    {
      && Increasing(coarse) && Increasing(fine)
      && highr.Valid() && highr.bounds == fine && highr.seen == all && highr.owner == Everyone
      && times.Keys == duration.Keys
      && highr in Repr && forall k :: k in duration ==> duration[k] in Repr && Holds(k, times[k])
    }

    constructor ()
      ensures Valid() && history == [] && fresh(Repr) && duration == map[]
      ensures unrecorded == UNRECORDED && untimed == UNTIMED && methods == METHODS
      ensures coarse == DURATION_BUCKETS && fine == HIGHR_BUCKETS
      ensures unrecorded == {"/metrics"} && untimed == {"/metrics", "/health"}
      ensures methods == {"GET", "HEAD", "POST", "PUT", "PATCH", "DELETE", "OPTIONS"}
    {
      BucketsIncrease();
      unrecorded, untimed, methods := UNRECORDED, UNTIMED, METHODS;
      coarse, fine := DURATION_BUCKETS, HIGHR_BUCKETS;
      requests, duration := map[], map[];
      highr := new Histogram(HIGHR_BUCKETS, Everyone);
      history, times, all := [], map[], [];
      Repr := {highr};
    }

    method Reset()
      requires Valid()
      modifies this
      ensures Valid() && history == [] && fresh(Repr) && duration == map[]
    {
      requests, duration := map[], map[];
      highr := new Histogram(fine, Everyone);
      history, times, all := [], map[], [];
      Repr := {highr};
    }

    method Observe(handler: string, verb: string, statusCode: nat, seconds: real)
      requires Valid()
      modifies this, Repr
      ensures Valid()
      ensures fresh(Repr - old(Repr))
      ensures history == if handler in unrecorded then old(history)
                         else old(history) + [Seen(handler, if verb in methods then verb
                           else "OTHER", statusCode / 100, seconds)]
    {
      if handler in unrecorded {
        return;
      }
      Record(Seen(handler, if verb in methods then verb else "OTHER", statusCode / 100, seconds));
    }

    /** What observe does under its lock. */
    method Record(o: Seen)
      requires Valid()
      modifies this, Repr
      ensures Valid() && history == old(history) + [o]
      ensures fresh(Repr - old(Repr))
    {
      ghost var r, t, a := requests, times, all;
      Count((o.handler, o.verb, o.status));
      if o.handler !in untimed {
        Time((o.handler, o.verb), o.seconds);
      }
      Remember(o, r, t, a);
    }

    method Count(key: RequestKey)
      modifies `requests
      ensures requests == old(requests)[key := Get(old(requests), key) + 1]
    {
      requests := requests[key := Get(requests, key) + 1];
    }

    ghost method Remember(o: Seen, r: map<RequestKey, nat>, t: map<Key, seq<real>>, a: seq<real>)
      requires r == RequestCounts(history) && t == SecondsByKey(untimed, history) && a == AllSeconds(untimed, history)
      requires requests == r[(o.handler, o.verb, o.status) := Get(r, (o.handler, o.verb, o.status)) + 1]
      requires times ==
        if o.handler in untimed then t else t[(o.handler, o.verb) := Listed(t, (o.handler, o.verb)) + [o.seconds]]
      requires all == if o.handler in untimed then a else a + [o.seconds]
      modifies `history
      ensures history == old(history) + [o] && Tells(history)
    {
      TellsMore(untimed, history, o, r, t, a);
      history := history + [o];
    }

    /** The latency half of observe. */
    method Time(k: Key, seconds: real)
      requires Shaped()
      modifies this`duration, this`times, this`all, this`Repr, Repr
      ensures Shaped() && all == old(all) + [seconds]
      ensures times == old(times)[k := Listed(old(times), k) + [seconds]]
      ensures fresh(Repr - old(Repr))
    {
      ListAppend(times, k, seconds);
      if k !in duration {
        AddHistogram(k);
      }
      Bump(k, seconds);
    }

    method AddHistogram(k: Key)
      requires Shaped() && k !in duration
      modifies this`duration, this`times, this`Repr
      ensures Shaped() && k in duration && times == old(times)[k := []] && fresh(Repr - old(Repr))
    {
      var added := new Histogram(coarse, One(k));
      duration := duration[k := added];
      times := times[k := []];
      Repr := Repr + {added};
    }

    method Bump(k: Key, seconds: real)
      requires Shaped() && k in duration
      modifies this`times, this`all, duration[k], highr
      ensures Shaped() && times == old(times)[k := old(times[k]) + [seconds]] && all == old(all) + [seconds]
    {
      var hist := duration[k];
      hist.Observe(seconds);
      highr.Observe(seconds);
      times := times[k := times[k] + [seconds]];
      all := all + [seconds];
    }

    /** At every bound the labelled histograms add up to the fine one. */
    lemma CoarseAgreesWithFine(bound: real)
      requires Valid()
      ensures SumMap(Cumulative(times, bound)) == CountLE(highr.seen, bound)
      ensures forall k :: k in duration ==> Cumulative(times, bound)[k] == CountLE(duration[k].seen, bound)
    {
      CoarseSumsToFine(untimed, history, bound);
      forall k | k in duration ensures Cumulative(times, bound)[k] == CountLE(duration[k].seen, bound) {
        assert Holds(k, times[k]);
      }
    }

    /** What render prints for bucket `i` of each labelled histogram. */
    ghost function Rendered(i: nat): map<Key, nat>
      requires Valid() && i < |DURATION_BUCKETS|
      reads this, highr, Repr
    {
      map k | k in duration && Holds(k, times[k]) :: Running(duration[k].counts, i)
    }

    /** So do the printed counters: the labelled buckets at 0.1, 0.5 and 1.0 add up to the bucket of the
        fine histogram at the same bound. */
    lemma RenderedBucketsAgree(i: nat)
      requires Valid() && i < |DURATION_BUCKETS|
      ensures FINE_AT[i] < |highr.counts| && DURATION_BUCKETS[i] == HIGHR_BUCKETS[FINE_AT[i]]
      ensures Rendered(i).Keys == duration.Keys
      ensures SumMap(Rendered(i)) == Running(highr.counts, FINE_AT[i])
    {
      BucketsIncrease();
      var bound := DURATION_BUCKETS[i];
      CoarseAgreesWithFine(bound);
      forall k | k in duration
        ensures Holds(k, times[k]) && Running(duration[k].counts, i) == CountLE(times[k], bound)
      {
        assert Holds(k, times[k]);
      }
      assert Rendered(i) == Cumulative(times, bound);
    }

    /** Every timed request is counted once in the counters and once in its histogram. */
    lemma RequestsAgreeWithCount(k: Key)
      requires Valid() && k in duration
      ensures SumMap(ByStatus(requests, k)) == duration[k].n
    {
      assert Holds(k, times[k]);
      ListedKeysAreTimed(untimed, history, k);
      RequestsSumToCount(untimed, history, k);
    }
  }
}
