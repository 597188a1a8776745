/** scheduler/cronutil.py: a cron line as text, and when the plan it parses to fires. */
module CronText {
  import opened Prelude
  import opened Cron
  import opened Retry

  // Words ---------------------------------------------------------------------

  predicate Solid(s: string) {
    forall i :: 0 <= i < |s| ==> !IsSpace(s[i])
  }

  predicate IsWord(s: string) {
    s != "" && Solid(s)
  }

  function WordLength(s: string): (n: nat)
    ensures n <= |s|
    ensures s != "" && !IsSpace(s[0]) ==> 0 < n
  {
    if s == "" || IsSpace(s[0]) then 0 else 1 + WordLength(s[1..])
  }

  /** str.split(). */
  function Words(s: string): seq<string>
    decreases |s|
  {
    if s == "" then []
    else if IsSpace(s[0]) then Words(s[1..])
    else [s[..WordLength(s)]] + Words(s[WordLength(s)..])
  }

  lemma {:induction false} WordsSkipBlank(gap: string, s: string)
    requires Blank(gap)
    ensures Words(gap + s) == Words(s)
  {
    if gap == "" {
      assert gap + s == s;
    } else {
      assert (gap + s)[1..] == gap[1..] + s;
      WordsSkipBlank(gap[1..], s);
    }
  }

  lemma {:induction false} WordLengthOf(w: string, s: string)
    requires Solid(w) && (s == "" || IsSpace(s[0]))
    ensures WordLength(w + s) == |w|
  {
    if w == "" {
      assert w + s == s;
    } else {
      assert (w + s)[1..] == w[1..] + s;
      WordLengthOf(w[1..], s);
    }
  }

  lemma WordsTakeWord(w: string, s: string)
    requires IsWord(w) && (s == "" || IsSpace(s[0]))
    ensures Words(w + s) == [w] + Words(s)
  {
    WordLengthOf(w, s);
    assert (w + s)[0] == w[0];
    assert (w + s)[..|w|] == w && (w + s)[|w|..] == s;
  }

  /** The words with a gap before each and one behind the last. */
  function Spread(words: seq<string>, gaps: seq<string>): string
    requires |gaps| == |words| + 1
  {
    if words == [] then gaps[0] else gaps[0] + (words[0] + Spread(words[1..], gaps[1..]))
  }

  /** Blank gaps; only the outer two may be empty. */
  ghost predicate Spaced(gaps: seq<string>) {
    && (forall i :: 0 <= i < |gaps| ==> Blank(gaps[i]))
    && forall i :: 0 < i < |gaps| - 1 ==> gaps[i] != ""
  }

  lemma {:induction false} WordsOfSpread(words: seq<string>, gaps: seq<string>)
    requires |gaps| == |words| + 1 && Spaced(gaps)
    requires forall i :: 0 <= i < |words| ==> IsWord(words[i])
    ensures Words(Spread(words, gaps)) == words
  {
    if words == [] {
      WordsSkipBlank(gaps[0], "");
      assert gaps[0] + "" == gaps[0];
    } else {
      var rest := Spread(words[1..], gaps[1..]);
      WordsOfSpread(words[1..], gaps[1..]);
      WordsSkipBlank(gaps[0], words[0] + rest);
      assert rest == "" || IsSpace(rest[0]) by {
        assert gaps[1..][0] == gaps[1];
      }
      WordsTakeWord(words[0], rest);
    }
  }

  // Numbers -------------------------------------------------------------------

  /** The table reads 0-9 as themselves and takes no underscore for a digit. */
  ghost predicate ReadsDecimal(d: DigitTable) {
    d('_') == -1 && forall c: char :: '0' <= c <= '9' ==> d(c) == c as int - '0' as int
  }

  /** Digits, with single underscores allowed between them. */
  function Digits(d: DigitTable, s: string): Option<int>
    decreases |s|
  {
    if s == "" || d(s[|s| - 1]) < 0 then None
    else if |s| == 1 then Some(d(s[0]))
    else
      var front := s[..|s| - 1];
      match Digits(d, if front[|front| - 1] == '_' then front[..|front| - 1] else front)
      case None => None
      case Some(head) => Some(10 * head + d(s[|s| - 1]))
  }

  /** int(s) for a text without whitespace; None is ValueError. */
  function Int(d: DigitTable, s: string): Option<int> {
    if s != "" && s[0] == '-' then
      match Digits(d, s[1..])
      case None => None
      case Some(n) => Some(-n)
    else if s != "" && s[0] == '+' then Digits(d, s[1..])
    else Digits(d, s)
  }

  function Text(n: nat): (s: string)
    ensures s != "" && forall i :: 0 <= i < |s| ==> '0' <= s[i] <= '9'
  {
    var last := [(n % 10 + '0' as int) as char];
    if n < 10 then last else Text(n / 10) + last
  }

  lemma {:induction false} IntOfText(d: DigitTable, n: nat)
    requires ReadsDecimal(d)
    ensures Digits(d, Text(n)) == Some(n) && Int(d, Text(n)) == Some(n)
  {
    var s := Text(n);
    if n >= 10 {
      IntOfText(d, n / 10);
      assert s[..|s| - 1] == Text(n / 10);
    }
  }

  /** A sign in front, and nothing else but digits. */
  lemma IntOfSigned(d: DigitTable, n: nat)
    requires ReadsDecimal(d)
    ensures Int(d, ['-'] + Text(n)) == Some(0 - n as int) && Int(d, ['+'] + Text(n)) == Some(n) && Int(d, "") == None
  {
    IntOfText(d, n);
    assert (['-'] + Text(n))[1..] == Text(n) && (['+'] + Text(n))[1..] == Text(n);
  }

  // Fields --------------------------------------------------------------------

  function IndexOf(s: string, c: char): (i: nat)
    ensures i <= |s| && (i < |s| <==> c in s) && (i < |s| ==> s[i] == c) && c !in s[..i]
  {
    if s == "" || s[0] == c then 0 else 1 + IndexOf(s[1..], c)
  }

  /** str.split(c). */
  function Split(s: string, c: char): seq<string>
    decreases |s|
  {
    var i := IndexOf(s, c);
    if i == |s| then [s] else [s[..i]] + Split(s[i + 1..], c)
  }

  lemma {:induction false} FirstIndex(a: string, c: char, b: string)
    requires c !in a
    ensures IndexOf(a + [c] + b, c) == |a|
    ensures (a + [c] + b)[..|a|] == a && (a + [c] + b)[|a| + 1..] == b
  {
    if a != "" {
      assert (a + [c] + b)[1..] == a[1..] + [c] + b;
      FirstIndex(a[1..], c, b);
    }
  }

  lemma SplitFirst(a: string, c: char, b: string)
    requires c !in a
    ensures Split(a + [c] + b, c) == [a] + Split(b, c)
  {
    FirstIndex(a, c, b);
  }

  lemma SplitWhole(s: string, c: char)
    requires c !in s
    ensures Split(s, c) == [s]
  {
  }

  lemma {:induction false} SplitJoin(parts: seq<string>, c: char)
    requires parts != [] && forall i :: 0 <= i < |parts| ==> c !in parts[i]
    ensures Split(Join([c], parts), c) == parts
  {
    var rest := parts[1..];
    assert parts == [parts[0]] + rest;
    if rest == [] {
      SplitWhole(parts[0], c);
    } else {
      SplitJoin(rest, c);
      SplitFirst(parts[0], c, Join([c], rest));
      assert Join([c], parts) == parts[0] + [c] + Join([c], rest);
    }
  }

  /** range(a, b + 1). */
  function Range(a: int, b: int): (s: set<int>)
    ensures forall v :: v in s <==> a <= v <= b
    decreases b - a
  {
    if b < a then {} else Range(a, b - 1) + {b}
  }

  /** _parse_part; None is ValueError. */
  function ParsePart(d: DigitTable, p: string, least: int, most: int): Option<set<int>> {
    if "*/" <= p then
      match Int(d, p[2..])
      case None => None
      case Some(step) => if step <= 0 then None else Some(set v | least <= v <= most && v % step == 0)
    else if '-' in p then
      var i := IndexOf(p, '-');
      match (Int(d, p[..i]), Int(d, p[i + 1..]))
      case (Some(a), Some(b)) => Some(Range(a, b))
      case _ => None
    else
      match Int(d, p)
      case None => None
      case Some(n) => Some({n})
  }

  /** The union of what the parts denote; None when one of them does not parse. */
  function PartsUnion(d: DigitTable, parts: seq<string>, least: int, most: int): Option<set<int>> {
    if parts == [] then Some({})
    else
      var last := |parts| - 1;
      Both(PartsUnion(d, parts[..last], least, most), ParsePart(d, parts[last], least, most))
  }

  function Both(a: Option<set<int>>, b: Option<set<int>>): Option<set<int>> {
    if a.Some? && b.Some? then Some(a.value + b.value) else None
  }

  function FieldOf(d: DigitTable, f: string, least: int, most: int): Option<Option<set<int>>> {
    if f == "*" then Some(None)
    else
      match PartsUnion(d, Split(f, ','), least, most)
      case None => None
      case Some(s) => Some(Some(s))
  }

  lemma {:induction false} UnionFails(d: DigitTable, parts: seq<string>, i: nat, least: int, most: int)
    requires i < |parts| && ParsePart(d, parts[i], least, most).None?
    ensures PartsUnion(d, parts, least, most).None?
  {
    if i < |parts| - 1 {
      UnionFails(d, parts[..|parts| - 1], i, least, most);
    }
  }

  /** _parse_field; `ok` is false on ValueError. */
  method ParseField(d: DigitTable, f: string, least: int, most: int) returns (r: Option<Option<set<int>>>)
    ensures r == FieldOf(d, f, least, most)
  {
    if f == "*" {
      return Some(None);
    }
    var out: set<int> := {};
    var parts := Split(f, ',');
    for i := 0 to |parts|
      invariant PartsUnion(d, parts[..i], least, most) == Some(out)
    {
      var part := ParsePart(d, parts[i], least, most);
      if part.None? {
        UnionFails(d, parts, i, least, most);
        return None;
      }
      assert parts[..i + 1][..i] == parts[..i];
      out := out + part.value;
    }
    assert parts[..|parts|] == parts;
    return Some(Some(out));
  }

  function CronOf(d: DigitTable, expr: string): Option<Fields> {
    var w := Words(expr);
    if |w| != 5 then None
    else
      match (FieldOf(d, w[0], 0, 59), FieldOf(d, w[1], 0, 23), FieldOf(d, w[4], 0, 6))
      case (Some(minutes), Some(hours), Some(dows)) => Some(Fields(minutes, hours, dows))
      case _ => None
  }

  /** parse_cron. The source also strips the line, its words and their parts first: split() drops
      the outer whitespace anyway, and a word has none. */
  method ParseCron(d: DigitTable, expr: string) returns (f: Option<Fields>)
    ensures f == CronOf(d, expr)
  {
    var w := Words(expr);
    if |w| != 5 {
      return None;
    }
    var minutes := ParseField(d, w[0], 0, 59);
    if minutes.None? {
      return None;
    }
    var hours := ParseField(d, w[1], 0, 23);
    if hours.None? {
      return None;
    }
    var dows := ParseField(d, w[4], 0, 6);
    if dows.None? {
      return None;
    }
    return Some(Fields(minutes.value, hours.value, dows.value));
  }

  function LineOf(d: DigitTable, expr: string): CronLine {
    if expr == "" then NoLine
    else
      match CronOf(d, expr)
      case None => BadLine
      case Some(f) => Line(f)
  }

  // What a written plan means --------------------------------------------------

  datatype Part = Every(step: nat) | Span(first: nat, last: nat) | Just(n: nat)

  /** One field as it is written; a plain `*` or the parts between commas. */
  datatype Field = Star | Parts(parts: seq<Part>)

  function PartText(p: Part): string {
    match p
    case Every(step) => "*/" + Text(step)
    case Span(first, last) => Text(first) + ['-'] + Text(last)
    case Just(n) => Text(n)
  }

  function Texts(parts: seq<Part>): seq<string> {
    seq(|parts|, i requires 0 <= i < |parts| => PartText(parts[i]))
  }

  function FieldText(f: Field): string {
    match f
    case Star => "*"
    case Parts(parts) => Join(",", Texts(parts))
  }

  /** A step of 0 is the one part that can be written and not parsed. */
  predicate Written(f: Field) {
    f.Parts? ==> forall i :: 0 <= i < |f.parts| ==> f.parts[i] != Every(0)
  }

  predicate PartAllows(p: Part, v: int) {
    match p
    case Every(step) => step > 0 && v % step == 0
    case Span(first, last) => first <= v <= last
    case Just(n) => v == n
  }

  /** The value `v` of an instant passes the field. */
  predicate Allows(f: Field, v: int) {
    f.Star? || exists i :: 0 <= i < |f.parts| && PartAllows(f.parts[i], v)
  }

  ghost predicate Shaped(f: Field) {
    f.Parts? ==> f.parts != []
  }

  /** `r` is what text for these parts should parse to. */
  ghost predicate Reads(r: Option<set<int>>, parts: seq<Part>, least: int, most: int) {
    && (r.Some? <==> Written(Parts(parts)))
    && (r.Some? ==> forall v :: least <= v <= most ==> (v in r.value <==> Allows(Parts(parts), v)))
  }

  ghost predicate ReadsPart(r: Option<set<int>>, p: Part, least: int, most: int) {
    && (r.Some? <==> p != Every(0))
    && (r.Some? ==> forall v :: least <= v <= most ==> (v in r.value <==> PartAllows(p, v)))
  }

  lemma StepMeans(d: DigitTable, step: nat, least: int, most: int)
    requires ReadsDecimal(d)
    ensures ReadsPart(ParsePart(d, PartText(Every(step)), least, most), Every(step), least, most)
  {
    IntOfText(d, step);
    var text := PartText(Every(step));
    assert text[2..] == Text(step) && text[..2] == "*/";
  }

  lemma SpanMeans(d: DigitTable, first: nat, last: nat, least: int, most: int)
    requires ReadsDecimal(d)
    ensures ReadsPart(ParsePart(d, PartText(Span(first, last)), least, most), Span(first, last), least, most)
  {
    IntOfText(d, first);
    IntOfText(d, last);
    FirstIndex(Text(first), '-', Text(last));
    var text := PartText(Span(first, last));
    assert text[0] == Text(first)[0] && text[|Text(first)|] == '-';
  }

  lemma NumberMeans(d: DigitTable, n: nat, least: int, most: int)
    requires ReadsDecimal(d)
    ensures ReadsPart(ParsePart(d, PartText(Just(n)), least, most), Just(n), least, most)
  {
    IntOfText(d, n);
    assert Text(n)[0] != '*';
  }

  lemma PartMeans(d: DigitTable, p: Part, least: int, most: int)
    requires ReadsDecimal(d)
    ensures ReadsPart(ParsePart(d, PartText(p), least, most), p, least, most)
  {
    match p
    case Every(step) => StepMeans(d, step, least, most);
    case Span(first, last) => SpanMeans(d, first, last, least, most);
    case Just(n) => NumberMeans(d, n, least, most);
  }

  predicate IsPartText(s: string) {
    s != "" && s != "*" && ',' !in s && Solid(s)
  }

  lemma PartTextIs(p: Part)
    ensures IsPartText(PartText(p))
  {
  }

  lemma BothRead(a: Option<set<int>>, b: Option<set<int>>, parts: seq<Part>, p: Part, least: int, most: int)
    requires Reads(a, parts, least, most) && ReadsPart(b, p, least, most)
    ensures Reads(Both(a, b), parts + [p], least, most)
  {
    var all := parts + [p];
    assert all[|parts|] == p;
    assert forall i :: 0 <= i < |parts| ==> all[i] == parts[i];
    assert forall v :: Allows(Parts(all), v) <==> Allows(Parts(parts), v) || PartAllows(p, v);
  }

  lemma UnionOfLast(d: DigitTable, texts: seq<string>, t: string, least: int, most: int)
    ensures PartsUnion(d, texts + [t], least, most) ==
      Both(PartsUnion(d, texts, least, most), ParsePart(d, t, least, most))
  {
    assert (texts + [t])[..|texts|] == texts;
  }

  lemma UnionNext(d: DigitTable, front: seq<Part>, p: Part, least: int, most: int)
    requires ReadsDecimal(d) && Reads(PartsUnion(d, Texts(front), least, most), front, least, most)
    ensures Reads(PartsUnion(d, Texts(front + [p]), least, most), front + [p], least, most)
  {
    PartMeans(d, p, least, most);
    UnionOfLast(d, Texts(front), PartText(p), least, most);
    assert Texts(front + [p]) == Texts(front) + [PartText(p)];
    BothRead(PartsUnion(d, Texts(front), least, most), ParsePart(d, PartText(p), least, most), front, p, least, most);
  }

  lemma UnionOfNone(d: DigitTable, least: int, most: int)
    ensures Reads(PartsUnion(d, Texts([]), least, most), [], least, most)
  {
    assert Texts([]) == [];
  }

  lemma {:induction false} UnionMeans(d: DigitTable, parts: seq<Part>, least: int, most: int)
    requires ReadsDecimal(d)
    ensures Reads(PartsUnion(d, Texts(parts), least, most), parts, least, most)
    decreases |parts|
  {
    if parts == [] {
      UnionOfNone(d, least, most);
    } else {
      var front, p := parts[..|parts| - 1], parts[|parts| - 1];
      assert parts == front + [p];
      UnionMeans(d, front, least, most);
      UnionNext(d, front, p, least, most);
    }
  }

  lemma {:induction false} JoinIsWord(parts: seq<string>)
    requires parts != [] && forall i :: 0 <= i < |parts| ==> IsPartText(parts[i])
    ensures Join(",", parts) != "" && Join(",", parts) != "*" && Solid(Join(",", parts))
  {
    if |parts| > 1 {
      JoinIsWord(parts[1..]);
      assert Join(",", parts)[|parts[0]|] == ',';
    }
  }

  ghost predicate ReadsField(r: Option<Option<set<int>>>, f: Field, least: int, most: int) {
    && (r.Some? <==> Written(f))
    && (r.Some? ==> forall v :: least <= v <= most ==> (Admits(r.value, v) <==> Allows(f, v)))
  }

  lemma TextsArePartTexts(parts: seq<Part>)
    ensures forall i :: 0 <= i < |parts| ==> IsPartText(Texts(parts)[i])
  {
    forall i | 0 <= i < |parts| ensures IsPartText(Texts(parts)[i]) {
      PartTextIs(parts[i]);
    }
  }

  lemma FieldIsWord(f: Field)
    requires Shaped(f)
    ensures IsWord(FieldText(f))
  {
    if f.Parts? {
      TextsArePartTexts(f.parts);
      JoinIsWord(Texts(f.parts));
    }
  }

  lemma FieldMeans(d: DigitTable, f: Field, least: int, most: int)
    requires ReadsDecimal(d) && Shaped(f)
    ensures ReadsField(FieldOf(d, FieldText(f), least, most), f, least, most)
  {
    if f.Parts? {
      TextsArePartTexts(f.parts);
      JoinIsWord(Texts(f.parts));
      SplitJoin(Texts(f.parts), ',');
      UnionMeans(d, f.parts, least, most);
    }
  }

  /** The local minute is one the three written fields allow; the weekday counts from Sunday. */
  predicate Due(minute: Field, hour: Field, dow: Field, localMinute: int) {
    && Allows(minute, localMinute % 60)
    && Allows(hour, localMinute / 60 % 24)
    && Allows(dow, (localMinute / 1440 + 4) % 7)
  }

  lemma DueMatches(f: Fields, minute: Field, hour: Field, dow: Field, localMinute: int)
    requires ReadsField(Some(f.minutes), minute, 0, 59)
    requires ReadsField(Some(f.hours), hour, 0, 23) && ReadsField(Some(f.dows), dow, 0, 6)
    ensures Matches(localMinute, f) <==> Due(minute, hour, dow, localMinute)
  {
    assert (if Weekday(localMinute) == 6 then 0 else Weekday(localMinute) + 1) == (localMinute / 1440 + 4) % 7;
  }

  lemma FiveWords(d: DigitTable, expr: string, w: seq<string>)
    requires Words(expr) == w && |w| == 5
    ensures var m, h, dow := FieldOf(d, w[0], 0, 59), FieldOf(d, w[1], 0, 23), FieldOf(d, w[4], 0, 6);
      CronOf(d, expr) == if m.Some? && h.Some? && dow.Some? then Some(Fields(m.value, h.value, dow.value)) else None
  {
  }

  ghost predicate ReadsPlan(r: Option<Fields>, minute: Field, hour: Field, dow: Field) {
    && (r.Some? <==> Written(minute) && Written(hour) && Written(dow))
    && (r.Some? ==>
      && ReadsField(Some(r.value.minutes), minute, 0, 59)
      && ReadsField(Some(r.value.hours), hour, 0, 23)
      && ReadsField(Some(r.value.dows), dow, 0, 6))
  }

  lemma WordsParse(d: DigitTable, expr: string, minute: Field, hour: Field, dow: Field)
    requires ReadsDecimal(d) && Shaped(minute) && Shaped(hour) && Shaped(dow)
    requires |Words(expr)| == 5
    requires Words(expr)[0] == FieldText(minute) && Words(expr)[1] == FieldText(hour)
    requires Words(expr)[4] == FieldText(dow)
    ensures ReadsPlan(CronOf(d, expr), minute, hour, dow)
  {
    FieldMeans(d, minute, 0, 59);
    FieldMeans(d, hour, 0, 23);
    FieldMeans(d, dow, 0, 6);
    FiveWords(d, expr, Words(expr));
  }

  /** A whole line as it is written; the day and month fields are any words. */
  datatype Plan = Plan(minute: Field, hour: Field, dom: string, month: string, dow: Field)

  ghost predicate IsPlan(p: Plan) {
    && Shaped(p.minute) && Shaped(p.hour) && Shaped(p.dow)
    && IsWord(p.dom) && IsWord(p.month)
  }

  function PlanWords(p: Plan): (words: seq<string>)
    ensures |words| == 5
  {
    [FieldText(p.minute), FieldText(p.hour), p.dom, p.month, FieldText(p.dow)]
  }

  lemma PlanWordsAreWords(p: Plan)
    requires IsPlan(p)
    ensures forall i :: 0 <= i < 5 ==> IsWord(PlanWords(p)[i])
  {
    FieldIsWord(p.minute);
    FieldIsWord(p.hour);
    FieldIsWord(p.dow);
  }

  lemma LineParses(d: DigitTable, p: Plan, gaps: seq<string>)
    requires ReadsDecimal(d) && IsPlan(p) && |gaps| == 6 && Spaced(gaps)
    ensures ReadsPlan(CronOf(d, Spread(PlanWords(p), gaps)), p.minute, p.hour, p.dow)
  {
    PlanWordsAreWords(p);
    WordsOfSpread(PlanWords(p), gaps);
    WordsParse(d, Spread(PlanWords(p), gaps), p.minute, p.hour, p.dow);
  }

  ghost predicate FiresWhenDue(f: Fields, z: Zone, p: Plan) {
    forall t :: Fire(f, z, t) <==> Aligned(t) && Due(p.minute, p.hour, p.dow, t / MINUTE + z(t / MINUTE))
  }

  lemma PlanFires(f: Fields, z: Zone, p: Plan)
    requires ReadsPlan(Some(f), p.minute, p.hour, p.dow)
    ensures FiresWhenDue(f, z, p)
  {
    forall t ensures Fire(f, z, t) <==> Aligned(t) && Due(p.minute, p.hour, p.dow, t / MINUTE + z(t / MINUTE)) {
      DueMatches(f, p.minute, p.hour, p.dow, t / MINUTE + z(t / MINUTE));
    }
  }

  /** A written line, whatever the gaps between its words and whatever its day and month fields say,
      parses exactly when no step is 0, and its plan then fires exactly in the minutes whose local
      minute, hour and weekday its three fields allow. */
  lemma LineFires(d: DigitTable, p: Plan, gaps: seq<string>, z: Zone)
    requires ReadsDecimal(d) && IsPlan(p) && |gaps| == 6 && Spaced(gaps)
    ensures var r := CronOf(d, Spread(PlanWords(p), gaps));
      && (r.Some? <==> Written(p.minute) && Written(p.hour) && Written(p.dow))
      && (r.Some? ==> FiresWhenDue(r.value, z, p))
  {
    LineParses(d, p, gaps);
    var r := CronOf(d, Spread(PlanWords(p), gaps));
    if r.Some? {
      PlanFires(r.value, z, p);
    }
  }

  /** A written line is no empty text, so it is read as a plan or refused. */
  lemma WrittenLine(d: DigitTable, p: Plan, gaps: seq<string>, z: Zone)
    requires ReadsDecimal(d) && IsPlan(p) && |gaps| == 6 && Spaced(gaps)
    ensures var r := LineOf(d, Spread(PlanWords(p), gaps));
      && (r.BadLine? <==> !(Written(p.minute) && Written(p.hour) && Written(p.dow)))
      && (r.Line? <==> Written(p.minute) && Written(p.hour) && Written(p.dow))
      && (r.Line? ==> FiresWhenDue(r.fields, z, p))
  {
    LineFires(d, p, gaps, z);
    PlanWordsAreWords(p);
    WordsOfSpread(PlanWords(p), gaps);
    assert Words("") == [];
  }
}
