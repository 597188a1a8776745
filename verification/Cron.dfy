/** scheduler/cronutil.py: the minute-by-minute scan of a cron plan and what it finds. */
module Cron {
  import opened Prelude

  /** The parsed minute, hour and weekday fields; None is `*`. */
  datatype Fields = Fields(minutes: Option<set<int>>, hours: Option<set<int>>, dows: Option<set<int>>)

  /** A slot's cron entry: empty, a line that does not parse, or a plan. */
  datatype CronLine = NoLine | BadLine | Line(fields: Fields)

  /** A time zone: for a UTC minute (counted from 1970-01-01 00:00), the local offset in minutes. */
  type Zone = int -> int

  predicate Admits(field: Option<set<int>>, v: int) {
    field.None? || v in field.value
  }

  // Day 0 of the epoch is a Thursday; Python counts Monday as 0.
  function Weekday(localMinute: int): int {
    (localMinute / 1440 + 3) % 7
  }

  /** _matches, on a local minute. */
  predicate Matches(localMinute: int, f: Fields) {
    && Admits(f.minutes, localMinute % 60)
    && Admits(f.hours, localMinute / 60 % 24)
    && Admits(f.dows, if Weekday(localMinute) == 6 then 0 else Weekday(localMinute) + 1)
  }

  predicate Aligned(t: int) {
    t % MINUTE == 0
  }

  /** The local minute of instant `t` is one the plan allows. */
  predicate DueAt(f: Fields, z: Zone, t: int) {
    Matches(t / MINUTE + z(t / MINUTE), f)
  }

  /** The plan fires at instant `t`. */
  predicate Fire(f: Fields, z: Zone, t: int) {
    Aligned(t) && DueAt(f, z, t)
  }

  function FloorMinute(t: int): int {
    t - t % MINUTE
  }

  function CeilMinute(t: int): int {
    if FloorMinute(t) < t then FloorMinute(t) + MINUTE else FloorMinute(t)
  }

  lemma CeilIsLeastAligned(t: int, u: int)
    ensures Aligned(CeilMinute(t)) && t <= CeilMinute(t) < t + MINUTE
    ensures Aligned(u) && t <= u ==> CeilMinute(t) <= u
  {
  }

  lemma NextMinute(cur: int, t: int)
    requires Aligned(cur)
    ensures Aligned(cur + MINUTE)
    ensures Aligned(t) && cur < t ==> cur + MINUTE <= t
  {
  }

  /** The fires found by scanning on from the aligned minute `cur`. */
  function Scan(f: Fields, z: Zone, cur: int, end: int): seq<int>
    decreases end - cur
  {
    if cur >= end then []
    else (if Fire(f, z, cur) then [cur] else []) + Scan(f, z, cur + MINUTE, end)
  }

  function Fires(f: Fields, z: Zone, start: int, end: int): seq<int> {
    Scan(f, z, CeilMinute(start), end)
  }

  lemma ScanNext(f: Fields, z: Zone, cur: int, end: int, found: seq<int>)
    requires Aligned(cur) && cur < end
    ensures (if DueAt(f, z, cur) then found + [cur]
      else found) + Scan(f, z, cur + MINUTE, end) == found + Scan(f, z, cur, end)
    ensures Aligned(cur + MINUTE)
  {
    NextMinute(cur, cur);
    assert Scan(f, z, cur, end) == (if DueAt(f, z, cur) then [cur] else []) + Scan(f, z, cur + MINUTE, end);
  }

  /** iter_cron_fires: the scan, minute by minute. */
  method IterCronFires(f: Fields, z: Zone, start: int, end: int) returns (out: seq<int>)
    ensures out == Fires(f, z, start, end)
  {
    CeilIsLeastAligned(start, start);
    var cur := FloorMinute(start);
    if cur < start {
      cur := cur + MINUTE;
    }
    out := [];
    while cur < end
      invariant Aligned(cur)
      invariant out + Scan(f, z, cur, end) == Fires(f, z, start, end)
      decreases end - cur
    {
      ScanNext(f, z, cur, end, out);
      if DueAt(f, z, cur) {
        out := out + [cur];
      }
      cur := cur + MINUTE;
    }
  }

  predicate Increasing(s: seq<int>) {
    forall i, j :: 0 <= i < j < |s| ==> s[i] < s[j]
  }

  lemma IncreasingEnds(s: seq<int>)
    requires Increasing(s) && s != []
    ensures forall t :: t in s ==> s[0] <= t <= s[|s| - 1]
  {
    forall t | t in s ensures s[0] <= t <= s[|s| - 1] {
      var i :| 0 <= i < |s| && s[i] == t;
      assert 0 < i ==> s[0] < s[i];
      assert i < |s| - 1 ==> s[i] < s[|s| - 1];
    }
  }

  lemma IncreasingPrefix(s: seq<int>, k: nat)
    requires Increasing(s) && k <= |s|
    ensures Increasing(s[..k])
    ensures forall t :: t in s[..k] ==> t in s
    ensures forall t, u :: t in s && t !in s[..k] && u in s[..k] ==> u < t
    ensures (exists t :: t in s && t !in s[..k]) ==> k < |s|
  {
    var front := s[..k];
    assert forall n :: 0 <= n < k ==> front[n] == s[n] && s[n] in front;
    forall t, u | t in s && t !in front && u in front ensures u < t {
      var i :| 0 <= i < |s| && s[i] == t;
      var j :| 0 <= j < k && front[j] == u;
      assert s[j] == u;
    }
    if k == |s| {
      assert s[..k] == s;
    }
  }

  lemma {:induction false} ScanExact(f: Fields, z: Zone, cur: int, end: int)
    requires Aligned(cur)
    ensures Increasing(Scan(f, z, cur, end))
    ensures forall t :: t in Scan(f, z, cur, end) <==> cur <= t < end && Fire(f, z, t)
    decreases end - cur
  {
    if cur < end {
      NextMinute(cur, cur);
      ScanExact(f, z, cur + MINUTE, end);
      var rest := Scan(f, z, cur + MINUTE, end);
      assert forall i :: 0 <= i < |rest| ==> rest[i] in rest;
      forall t ensures t in Scan(f, z, cur, end) <==> cur <= t < end && Fire(f, z, t) {
        NextMinute(cur, t);
      }
    }
  }

  /** The scan is exact: strictly increasing, and nothing but the matching minutes of [start, end). */
  lemma FiresExact(f: Fields, z: Zone, start: int, end: int)
    ensures Increasing(Fires(f, z, start, end))
    ensures forall t :: t in Fires(f, z, start, end) <==> start <= t < end && Fire(f, z, t)
  {
    CeilIsLeastAligned(start, start);
    ScanExact(f, z, CeilMinute(start), end);
    forall t ensures t in Fires(f, z, start, end) <==> start <= t < end && Fire(f, z, t) {
      CeilIsLeastAligned(start, t);
    }
  }

  const HORIZON := 14 * DAY

  function NextFires(f: Fields, z: Zone, after: int, count: int): seq<int> {
    var found := Fires(f, z, after + MINUTE, after + HORIZON);
    found[..Min(Max(0, count), |found|)]
  }

  function PreviousFire(f: Fields, z: Zone, before: int): Option<int> {
    var found := Fires(f, z, before - HORIZON, before);
    if found == [] then None else Some(found[|found| - 1])
  }

  /** previous_fire is the last match before `before`, and None only when two weeks hold none. */
  lemma PreviousFireIsLast(f: Fields, z: Zone, before: int)
    ensures match PreviousFire(f, z, before)
      case None => forall t :: before - 14 * DAY <= t < before ==> !Fire(f, z, t)
      case Some(p) =>
        && before - 14 * DAY <= p < before && Fire(f, z, p)
        && forall t :: p < t < before ==> !Fire(f, z, t)
  {
    var found := Fires(f, z, before - HORIZON, before);
    FiresExact(f, z, before - HORIZON, before);
    if found != [] {
      IncreasingEnds(found);
      assert found[|found| - 1] in found;
    } else {
      assert forall t :: t !in found;
    }
  }

  /** next_fires lists the first matches at or after one minute past `after`, none left out. */
  lemma NextFiresAreFirst(f: Fields, z: Zone, after: int, count: int)
    ensures var r := NextFires(f, z, after, count);
      && Increasing(r)
      && |r| <= Max(0, count)
      && (forall t :: t in r ==> after + MINUTE <= t < after + 14 * DAY && Fire(f, z, t))
      && (forall t :: after + MINUTE <= t < after + 14 * DAY && Fire(f, z, t) && t !in r ==>
            |r| == Max(0, count) && forall u :: u in r ==> u < t)
  {
    var found := Fires(f, z, after + MINUTE, after + HORIZON);
    var r := NextFires(f, z, after, count);
    FiresExact(f, z, after + MINUTE, after + HORIZON);
    IncreasingPrefix(found, Min(Max(0, count), |found|));
  }

  /** On a minute-aligned instant neither answer skips a match. */
  lemma NoFireBetween(f: Fields, z: Zone, now: int, count: int)
    requires Aligned(now)
    ensures NextFires(f, z, now, count) != [] ==>
      forall t :: now < t < NextFires(f, z, now, count)[0] ==> !Fire(f, z, t)
    ensures PreviousFire(f, z, now).Some? ==>
      forall t :: PreviousFire(f, z, now).value < t < now ==> !Fire(f, z, t)
  {
    PreviousFireIsLast(f, z, now);
    NextFiresAreFirst(f, z, now, count);
    var r := NextFires(f, z, now, count);
    if r != [] {
      assert r[0] in r;
      IncreasingEnds(r);
      forall t | now < t < r[0] ensures !Fire(f, z, t) {
        NextMinute(now, t);
      }
    }
  }

  /** Off the minute, next_fires passes over exactly one instant: the next full minute. */
  lemma SkippedFire(f: Fields, z: Zone, now: int, t: int)
    requires now < t < now + HORIZON && Fire(f, z, t)
    ensures t !in Fires(f, z, now + MINUTE, now + HORIZON) <==> !Aligned(now) && t == CeilMinute(now)
  {
    FiresExact(f, z, now + MINUTE, now + HORIZON);
    CeilIsLeastAligned(now, t);
    CeilIsLeastAligned(now + MINUTE, t);
  }

  // Every week ------------------------------------------------------------------

  /** Some in-range value satisfies the field. */
  ghost predicate Reachable(field: Option<set<int>>, size: int) {
    exists v :: 0 <= v < size && Admits(field, v)
  }

  ghost predicate CanFire(f: Fields) {
    Reachable(f.minutes, 60) && Reachable(f.hours, 24) && Reachable(f.dows, 7)
  }

  const WEEK := 7 * DAY

  /** A local minute of the epoch week that reads as the given minute, hour and cron weekday. */
  function WeekMinute(minute: int, hour: int, dow: int): int {
    minute + 60 * hour + 1440 * ((dow + 3) % 7)
  }

  lemma MinuteReadsBack(minute: int, hours: int)
    requires 0 <= minute < 60
    ensures (minute + 60 * hours) % 60 == minute && (minute + 60 * hours) / 60 == hours
  {
  }

  lemma HourReadsBack(hour: int, day: int)
    requires 0 <= hour < 24
    ensures (hour + 24 * day) % 24 == hour
  {
  }

  lemma DayReadsBack(minute: int, day: int)
    requires 0 <= minute < 1440
    ensures (minute + 1440 * day) / 1440 == day
  {
  }

  lemma WeekdayReadsBack(dow: int, week: int)
    requires 0 <= dow < 7
    ensures ((dow + 3) % 7 + 7 * week + 3) % 7 == (dow + 6) % 7
  {
  }

  lemma WeekMinuteReadsBack(minute: int, hour: int, dow: int, week: int)
    requires 0 <= minute < 60 && 0 <= hour < 24 && 0 <= dow < 7
    ensures var l := WeekMinute(minute, hour, dow) + 10080 * week;
      && l % 60 == minute && l / 60 % 24 == hour
      && (if Weekday(l) == 6 then 0 else Weekday(l) + 1) == dow
  {
    var day := (dow + 3) % 7 + 7 * week;
    var l := WeekMinute(minute, hour, dow) + 10080 * week;
    assert l == minute + 60 * (hour + 24 * day);
    MinuteReadsBack(minute, hour + 24 * day);
    HourReadsBack(hour, day);
    DayReadsBack(minute + 60 * hour, day);
    WeekdayReadsBack(dow, week);
    assert Weekday(l) == (dow + 6) % 7;
  }

  lemma WeekOf(l: int, target: int) returns (week: int)
    ensures l <= target + 10080 * week < l + 10080
  {
    week := (l - target + 10079) / 10080;
  }

  /** In a fixed-offset zone a plan whose fields can be met fires in every seven days. */
  lemma WeeklyFire(f: Fields, offset: int, start: int) returns (t: int)
    requires CanFire(f)
    ensures start <= t < start + WEEK && Fire(f, _ => offset, t)
  {
    var minute :| 0 <= minute < 60 && Admits(f.minutes, minute);
    var hour :| 0 <= hour < 24 && Admits(f.hours, hour);
    var dow :| 0 <= dow < 7 && Admits(f.dows, dow);
    var first := CeilMinute(start) / MINUTE;
    var target := WeekMinute(minute, hour, dow);
    var week := WeekOf(first + offset, target);
    WeekMinuteReadsBack(minute, hour, dow, week);
    var l := target + 10080 * week;
    t := (l - offset) * MINUTE;
    assert t / MINUTE == l - offset;
    CeilIsLeastAligned(start, start);
    assert first * MINUTE == CeilMinute(start);
  }

  /** So the plan is never without a previous and a next fire, and only such a plan fires at all. */
  lemma WeeklyBound(f: Fields, offset: int, now: int, count: int)
    requires count >= 1
    ensures CanFire(f) <==> PreviousFire(f, _ => offset, now).Some?
    ensures CanFire(f) <==> NextFires(f, _ => offset, now, count) != []
  {
    var z: Zone := _ => offset;
    PreviousFireIsLast(f, z, now);
    NextFiresAreFirst(f, z, now, count);
    if CanFire(f) {
      var p := WeeklyFire(f, offset, now - WEEK);
      var n := WeeklyFire(f, offset, now + MINUTE);
      assert Fire(f, z, p) && Fire(f, z, n);
    }
    var r := NextFires(f, z, now, count);
    if r != [] {
      assert r[0] in r;
      FiringFieldsCanFire(f, z, r[0]);
    }
    if PreviousFire(f, z, now).Some? {
      FiringFieldsCanFire(f, z, PreviousFire(f, z, now).value);
    }
  }

  lemma FiringFieldsCanFire(f: Fields, z: Zone, t: int)
    requires Fire(f, z, t)
    ensures CanFire(f)
  {
    var l := t / MINUTE + z(t / MINUTE);
    assert 0 <= l % 60 < 60 && Admits(f.minutes, l % 60);
    assert 0 <= l / 60 % 24 < 24 && Admits(f.hours, l / 60 % 24);
    var dow := if Weekday(l) == 6 then 0 else Weekday(l) + 1;
    assert 0 <= dow < 7 && Admits(f.dows, dow);
  }
}
