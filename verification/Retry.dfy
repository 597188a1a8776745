/** worker/retry.py: from an error text to a category, from a category to a plan. */
module Retry {
  import opened Prelude

  datatype Category = Throttled | Config | NotReady | Transient | Unknown

  // Text ----------------------------------------------------------------------

  /** `part` occurs in `text` at position `i`. */
  predicate OccursAt(part: string, text: string, i: int) {
    0 <= i <= |text| - |part| && text[i..i + |part|] == part
  }

  /** Python's `part in text`. */
  predicate Contains(text: string, part: string) {
    exists i :: 0 <= i <= |text| && OccursAt(part, text, i)
  }

  /** Python's `sep.join(parts)`. */
  function Join(sep: string, parts: seq<string>): string {
    if parts == [] then ""
    else if |parts| == 1 then parts[0]
    else parts[0] + sep + Join(sep, parts[1..])
  }

  // Codes ---------------------------------------------------------------------

  /** What `\d` and `int()` read: the decimal value of a digit, -1 for any other character.
      Which characters beyond 0-9 are digits is the Unicode version's business, so the whole
      file is parametric in it; brackets, `;`, `:` and the space are never digits. */
  type DigitTable = d: char -> int | IsDigitTable(d) witness AsciiDigit

  ghost predicate IsDigitTable(d: char -> int) {
    && (forall c :: -1 <= d(c) <= 9)
    && d('[') == -1 && d(']') == -1 && d(';') == -1 && d(' ') == -1 && d(':') == -1
  }

  function AsciiDigit(c: char): int {
    if '0' <= c <= '9' then c as int - '0' as int else -1
  }

  /** The pattern `\[(\d{4})\]` matches at position `i`. */
  predicate CodeAt(d: DigitTable, s: string, i: int) {
    && 0 <= i && i + 6 <= |s|
    && s[i] == '[' && s[i + 5] == ']'
    && d(s[i + 1]) >= 0 && d(s[i + 2]) >= 0 && d(s[i + 3]) >= 0 && d(s[i + 4]) >= 0
  }

  function CodeValue(d: DigitTable, s: string, i: int): int
    requires CodeAt(d, s, i)
  {
    1000 * d(s[i + 1]) + 100 * d(s[i + 2]) + 10 * d(s[i + 3]) + d(s[i + 4])
  }

  /** `re.findall` from position `i`: leftmost match first, scanning on behind each match. */
  function FindAll(d: DigitTable, s: string, i: nat): set<int>
    decreases |s| - i
  {
    if i + 6 > |s| then {}
    else if CodeAt(d, s, i) then {CodeValue(d, s, i)} + FindAll(d, s, i + 6)
    else FindAll(d, s, i + 1)
  }

  function Codes(d: DigitTable, s: string): set<int> {
    FindAll(d, s, 0)
  }

  /** Some match, at any position, reads as code `n`. */
  ghost predicate Quotes(d: DigitTable, s: string, n: int) {
    exists i :: CodeAt(d, s, i) && CodeValue(d, s, i) == n
  }

  // Categories ----------------------------------------------------------------

  const NOT_READY_CODES := {1003, 1004, 1005, 1006, 1007, 1008, 1009, 1019, 1021}
  const THROTTLED_CODES := {1018}
  const CONFIG_CODES := {1010, 1011, 1012, 1013, 1014, 1015, 1016, 1017, 1020}

  const CONFIG_MARKERS := [
    "No Flex credentials", "Token has expired", "Token is invalid", "Query is invalid", "unknown job kind"
  ]
  const TRANSIENT_MARKERS := [
    "timed out", "Connection refused", "Connection reset", "connection to server", "could not connect",
    "Name or service not known", "Temporary failure in name resolution", "URLError", "HTTP Error 5",
    "OperationalError", "InterfaceError", "did not return report"
  ]

  predicate ContainsAny(text: string, markers: seq<string>) {
    exists k :: 0 <= k < |markers| && Contains(text, markers[k])
  }

  function Classify(d: DigitTable, msg: string): Category {
    var codes := Codes(d, msg);
    if codes * THROTTLED_CODES != {} then Throttled
    else if codes * CONFIG_CODES != {} || ContainsAny(msg, CONFIG_MARKERS) then Config
    else if codes * NOT_READY_CODES != {} then NotReady
    else if ContainsAny(msg, TRANSIENT_MARKERS) then Transient
    else Unknown
  }

  const ORDER: seq<Category> := [Throttled, Config, NotReady, Transient, Unknown]

  /** The scan of `order` in summarize_categories. */
  method SummarizeCategories(d: DigitTable, messages: seq<string>) returns (worst: Category)
    ensures worst == Summary(d, messages)
  {
    var seen := set m | m in messages :: Classify(d, m);
    for k := 0 to |ORDER|
      invariant forall j :: 0 <= j < k ==> ORDER[j] !in seen
    {
      if ORDER[k] in seen {
        SummaryIs(d, messages, k);
        return ORDER[k];
      }
    }
    if messages != [] {
      SomethingSeen(d, messages);
    }
    return Unknown;
  }

  /** How bad a category is; 0 is worst. */
  function Rank(c: Category): nat {
    match c
    case Throttled => 0
    case Config => 1
    case NotReady => 2
    case Transient => 3
    case Unknown => 4
  }

  function Worse(a: Category, b: Category): Category {
    if Rank(a) <= Rank(b) then a else b
  }

  /** The category of a list of messages: the worst of its members', Unknown for none. */
  function Summary(d: DigitTable, messages: seq<string>): Category {
    if messages == [] then Unknown
    else Worse(Classify(d, messages[0]), Summary(d, messages[1..]))
  }

  lemma {:induction false} SummaryBounds(d: DigitTable, messages: seq<string>)
    ensures forall m :: m in messages ==> Rank(Summary(d, messages)) <= Rank(Classify(d, m))
    ensures messages == [] ==> Summary(d, messages) == Unknown
    ensures messages != [] ==> exists m :: m in messages && Summary(d, messages) == Classify(d, m)
  {
    if messages != [] {
      var rest := messages[1..];
      SummaryBounds(d, rest);
      assert messages[0] in messages;
      forall m | m in messages ensures Rank(Summary(d, messages)) <= Rank(Classify(d, m)) {
        assert m == messages[0] || m in rest;
      }
      if rest != [] {
        var m :| m in rest && Summary(d, rest) == Classify(d, m);
        assert m in messages;
      }
    }
  }

  lemma SummaryIs(d: DigitTable, messages: seq<string>, k: nat)
    requires k < |ORDER|
    requires exists m :: m in messages && Classify(d, m) == ORDER[k]
    requires forall j, m :: 0 <= j < k && m in messages ==> Classify(d, m) != ORDER[j]
    ensures Summary(d, messages) == ORDER[k]
  {
    SummaryBounds(d, messages);
    var worst := Summary(d, messages);
    assert ORDER[Rank(worst)] == worst;
  }

  lemma SomethingSeen(d: DigitTable, messages: seq<string>)
    requires messages != []
    ensures exists j :: 0 <= j < |ORDER| && exists m :: m in messages && Classify(d, m) == ORDER[j]
  {
    var c := Classify(d, messages[0]);
    assert messages[0] in messages;
    assert ORDER[Rank(c)] == c;
  }

  /** What the categories mean, in IB's numbers and words: 1018 is a throttle; 1010-1017, 1020 or a text
      about credentials, token, query or kind is a configuration error; 1003-1009, 1019 and 1021 wait for
      the statement; a network or database text passes by itself; the first of these that applies. */
  lemma ClassifyByTheTable(d: DigitTable, msg: string)
    ensures Classify(d, msg) == Throttled <==> Quotes(d, msg, 1018)
    ensures Classify(d, msg) == Config <==> Classify(d, msg) != Throttled && ConfigText(d, msg)
    ensures Classify(d, msg) == NotReady <==> Classify(d, msg) !in {Throttled, Config} && NotReadyText(d, msg)
    ensures Classify(d, msg) == Transient <==> Classify(d, msg) !in {Throttled, Config, NotReady} && TransientText(msg)
  {
    forall n ensures n in Codes(d, msg) <==> Quotes(d, msg, n) {
      CodesAreQuoted(d, msg, n);
    }
    var codes := Codes(d, msg);
    assert codes * THROTTLED_CODES != {} <==> 1018 in codes by {
      if 1018 in codes {
        assert 1018 in codes * THROTTLED_CODES;
      }
    }
    MeetsConfig(d, msg, codes);
    MeetsNotReady(d, msg, codes);
    ConfigMarkersAre(msg);
    TransientMarkersAre(msg);
  }

  ghost predicate ConfigText(d: DigitTable, msg: string) {
    || (exists n :: (1010 <= n <= 1017 || n == 1020) && Quotes(d, msg, n))
    || Contains(msg, "No Flex credentials") || Contains(msg, "Token has expired") || Contains(msg, "Token is invalid")
    || Contains(msg, "Query is invalid") || Contains(msg, "unknown job kind")
  }

  ghost predicate NotReadyText(d: DigitTable, msg: string) {
    exists n :: (1003 <= n <= 1009 || n == 1019 || n == 1021) && Quotes(d, msg, n)
  }

  ghost predicate TransientText(msg: string) {
    || Contains(msg, "timed out") || Contains(msg, "Connection refused") || Contains(msg, "Connection reset")
    || Contains(msg, "connection to server") || Contains(msg, "could not connect")
    || Contains(msg, "Name or service not known") || Contains(msg, "Temporary failure in name resolution")
    || Contains(msg, "URLError") || Contains(msg, "HTTP Error 5")
    || Contains(msg, "OperationalError") || Contains(msg, "InterfaceError") || Contains(msg, "did not return report")
  }

  lemma MeetsConfig(d: DigitTable, msg: string, codes: set<int>)
    requires forall n :: n in codes <==> Quotes(d, msg, n)
    ensures codes * CONFIG_CODES != {} <==> exists n :: (1010 <= n <= 1017 || n == 1020) && Quotes(d, msg, n)
  {
    forall n | n in codes && (1010 <= n <= 1017 || n == 1020) ensures n in codes * CONFIG_CODES {
    }
  }

  lemma MeetsNotReady(d: DigitTable, msg: string, codes: set<int>)
    requires forall n :: n in codes <==> Quotes(d, msg, n)
    ensures codes * NOT_READY_CODES != {} <==> NotReadyText(d, msg)
  {
    forall n | n in codes && (1003 <= n <= 1009 || n == 1019 || n == 1021) ensures n in codes * NOT_READY_CODES {
    }
  }

  lemma ConfigMarkersAre(msg: string)
    ensures ContainsAny(msg, CONFIG_MARKERS) <==>
      || Contains(msg, "No Flex credentials") || Contains(msg, "Token has expired") || Contains(msg, "Token is invalid")
      || Contains(msg, "Query is invalid") || Contains(msg, "unknown job kind")
  {
    assert CONFIG_MARKERS[0] == "No Flex credentials" && CONFIG_MARKERS[1] == "Token has expired";
    assert CONFIG_MARKERS[2] == "Token is invalid" && CONFIG_MARKERS[3] == "Query is invalid";
    assert CONFIG_MARKERS[4] == "unknown job kind";
  }

  lemma TransientMarkersAre(msg: string)
    ensures ContainsAny(msg, TRANSIENT_MARKERS) <==> TransientText(msg)
  {
    assert TRANSIENT_MARKERS[0] == "timed out" && TRANSIENT_MARKERS[1] == "Connection refused";
    assert TRANSIENT_MARKERS[2] == "Connection reset" && TRANSIENT_MARKERS[3] == "connection to server";
    assert TRANSIENT_MARKERS[4] == "could not connect" && TRANSIENT_MARKERS[5] == "Name or service not known";
    assert TRANSIENT_MARKERS[6] == "Temporary failure in name resolution" && TRANSIENT_MARKERS[7] == "URLError";
    assert TRANSIENT_MARKERS[8] == "HTTP Error 5" && TRANSIENT_MARKERS[9] == "OperationalError";
    assert TRANSIENT_MARKERS[10] == "InterfaceError" && TRANSIENT_MARKERS[11] == "did not return report";
  }

  // Seams ---------------------------------------------------------------------

  // Messages are put together with "; " (job errors) and ": " (a prefix before an error).
  // Neither a code nor a marker can lie across such a seam.

  predicate Seam(sep: string) {
    sep == "; " || sep == ": "
  }

  /** findall, which skips behind each match, still finds the matches at every position. */
  lemma {:induction false} FindAllIsEveryMatch(d: DigitTable, s: string, i: nat, n: int)
    ensures n in FindAll(d, s, i) <==> exists j :: i <= j && CodeAt(d, s, j) && CodeValue(d, s, j) == n
    decreases |s| - i
  {
    if i + 6 > |s| {
    } else if CodeAt(d, s, i) {
      FindAllIsEveryMatch(d, s, i + 6, n);
      forall j | i < j < i + 6 ensures !CodeAt(d, s, j) {
        assert s[j] != '[';
      }
    } else {
      FindAllIsEveryMatch(d, s, i + 1, n);
    }
  }

  /** The codes of a message are exactly what its matches read, wherever they stand. */
  lemma CodesAreQuoted(d: DigitTable, s: string, n: int)
    ensures n in Codes(d, s) <==> Quotes(d, s, n)
  {
    FindAllIsEveryMatch(d, s, 0, n);
  }

  /** A match inside a slice is a match of the whole text inside the slice's bounds. */
  lemma CodeInSlice(d: DigitTable, s: string, lo: nat, hi: nat, i: int)
    requires lo <= hi <= |s|
    ensures CodeAt(d, s[lo..hi], i) <==> 0 <= i && lo + i + 6 <= hi && CodeAt(d, s, lo + i)
    ensures CodeAt(d, s[lo..hi], i) ==> CodeValue(d, s[lo..hi], i) == CodeValue(d, s, lo + i)
  {
    var t := s[lo..hi];
    if 0 <= i && i + 6 <= |t| {
      assert t[i] == s[lo + i] && t[i + 1] == s[lo + i + 1] && t[i + 2] == s[lo + i + 2];
      assert t[i + 3] == s[lo + i + 3] && t[i + 4] == s[lo + i + 4] && t[i + 5] == s[lo + i + 5];
    }
  }

  lemma SeamBreaksCode(d: DigitTable, s: string, i: int, at: int)
    requires 0 <= i <= at < i + 6 <= |s|
    requires s[at] == ';' || s[at] == ':' || s[at] == ' '
    ensures !CodeAt(d, s, i)
  {
    if at == i {
    } else if at == i + 1 {
    } else if at == i + 2 {
    } else if at == i + 3 {
    } else if at == i + 4 {
    } else {
      assert at == i + 5;
    }
  }

  lemma QuotesSplit(d: DigitTable, s: string, at: nat, n: int)
    requires at + 2 <= |s| && Seam(s[at..at + 2])
    ensures Quotes(d, s, n) <==> Quotes(d, s[..at], n) || Quotes(d, s[at + 2..], n)
  {
    assert s[at] == s[at..at + 2][0] && s[at + 1] == s[at..at + 2][1];
    forall i ensures CodeAt(d, s, i) ==> i + 6 <= at || at + 2 <= i {
      if 0 <= i <= at < i + 6 <= |s| {
        SeamBreaksCode(d, s, i, at);
      } else if 0 <= i <= at + 1 < i + 6 <= |s| {
        SeamBreaksCode(d, s, i, at + 1);
      }
    }
    assert s[..at] == s[0..at] && s[at + 2..] == s[at + 2..|s|];
    if Quotes(d, s, n) {
      var i :| CodeAt(d, s, i) && CodeValue(d, s, i) == n;
      CodeInSlice(d, s, 0, at, i);
      CodeInSlice(d, s, at + 2, |s|, i - at - 2);
    }
    if Quotes(d, s[..at], n) {
      var i :| CodeAt(d, s[..at], i) && CodeValue(d, s[..at], i) == n;
      CodeInSlice(d, s, 0, at, i);
    }
    if Quotes(d, s[at + 2..], n) {
      var i :| CodeAt(d, s[at + 2..], i) && CodeValue(d, s[at + 2..], i) == n;
      CodeInSlice(d, s, at + 2, |s|, i);
    }
  }

  lemma QuotesAcrossSeam(d: DigitTable, a: string, sep: string, b: string, n: int)
    requires Seam(sep)
    ensures Quotes(d, a + sep + b, n) <==> Quotes(d, a, n) || Quotes(d, b, n)
  {
    var s := a + sep + b;
    assert s[|a|..|a| + 2] == sep && s[..|a|] == a && s[|a| + 2..] == b;
    QuotesSplit(d, s, |a|, n);
  }

  lemma CodesAcrossSeam(d: DigitTable, a: string, sep: string, b: string)
    requires Seam(sep)
    ensures Codes(d, a + sep + b) == Codes(d, a) + Codes(d, b)
  {
    forall n ensures n in Codes(d, a + sep + b) <==> n in Codes(d, a) + Codes(d, b) {
      CodesAreQuoted(d, a + sep + b, n);
      CodesAreQuoted(d, a, n);
      CodesAreQuoted(d, b, n);
      QuotesAcrossSeam(d, a, sep, b, n);
    }
  }

  /** A marker that no seam can cut: not empty, no `;` or `:` in it, no leading space. */
  predicate SeamFree(m: string) {
    m != "" && m[0] != ' ' && forall k :: 0 <= k < |m| ==> m[k] != ';' && m[k] != ':'
  }

  lemma OccursInSlice(m: string, s: string, lo: nat, hi: nat, i: int)
    requires lo <= hi <= |s|
    ensures OccursAt(m, s[lo..hi], i) <==> 0 <= i && lo + i + |m| <= hi && OccursAt(m, s, lo + i)
  {
    var t := s[lo..hi];
    if 0 <= i && lo + i + |m| <= hi {
      var part, whole := t[i..i + |m|], s[lo + i..lo + i + |m|];
      assert |part| == |whole| == |m|;
      assert forall k :: 0 <= k < |m| ==> part[k] == t[i + k] == s[lo + i + k] == whole[k];
      assert part == whole;
    }
  }

  lemma SeamBreaksMarker(m: string, s: string, i: int, at: nat)
    requires at + 2 <= |s| && Seam(s[at..at + 2]) && SeamFree(m)
    requires OccursAt(m, s, i)
    ensures i + |m| <= at || at + 2 <= i
  {
    assert s[at] == s[at..at + 2][0] && s[at + 1] == s[at..at + 2][1];
    assert forall j :: i <= j < i + |m| ==> s[j] == s[i..i + |m|][j - i] == m[j - i];
  }

  lemma ContainsSplit(s: string, at: nat, m: string)
    requires at + 2 <= |s| && Seam(s[at..at + 2]) && SeamFree(m)
    ensures Contains(s, m) <==> Contains(s[..at], m) || Contains(s[at + 2..], m)
  {
    assert s[..at] == s[0..at] && s[at + 2..] == s[at + 2..|s|];
    if Contains(s, m) {
      var i :| 0 <= i <= |s| && OccursAt(m, s, i);
      SeamBreaksMarker(m, s, i, at);
      OccursInSlice(m, s, 0, at, i);
      OccursInSlice(m, s, at + 2, |s|, i - at - 2);
    }
    if Contains(s[..at], m) {
      var i :| 0 <= i <= at && OccursAt(m, s[..at], i);
      OccursInSlice(m, s, 0, at, i);
    }
    if Contains(s[at + 2..], m) {
      var i :| 0 <= i <= |s| && OccursAt(m, s[at + 2..], i);
      OccursInSlice(m, s, at + 2, |s|, i);
    }
  }

  lemma ContainsAcrossSeam(a: string, sep: string, b: string, m: string)
    requires Seam(sep) && SeamFree(m)
    ensures Contains(a + sep + b, m) <==> Contains(a, m) || Contains(b, m)
  {
    var s := a + sep + b;
    assert s[|a|..|a| + 2] == sep && s[..|a|] == a && s[|a| + 2..] == b;
    ContainsSplit(s, |a|, m);
  }

  lemma AnyAcrossSeam(a: string, sep: string, b: string, markers: seq<string>)
    requires Seam(sep) && forall k :: 0 <= k < |markers| ==> SeamFree(markers[k])
    ensures ContainsAny(a + sep + b, markers) <==> ContainsAny(a, markers) || ContainsAny(b, markers)
  {
    forall k | 0 <= k < |markers|
      ensures Contains(a + sep + b, markers[k]) <==> Contains(a, markers[k]) || Contains(b, markers[k])
    {
      ContainsAcrossSeam(a, sep, b, markers[k]);
    }
  }

  lemma ConfigMarkersAreSeamFree()
    ensures forall k :: 0 <= k < |CONFIG_MARKERS| ==> SeamFree(CONFIG_MARKERS[k])
  {
    assert SeamFree("No Flex credentials");
    assert SeamFree("Token has expired");
    assert SeamFree("Token is invalid");
    assert SeamFree("Query is invalid");
    assert SeamFree("unknown job kind");
  }

  lemma TransientMarkersAreSeamFree()
    ensures forall k :: 0 <= k < |TRANSIENT_MARKERS| ==> SeamFree(TRANSIENT_MARKERS[k])
  {
    NetworkMarkersAreSeamFree();
    OtherTransientMarkersAreSeamFree();
  }

  lemma NetworkMarkersAreSeamFree()
    ensures forall k :: 0 <= k < 6 ==> SeamFree(TRANSIENT_MARKERS[k])
  {
    assert SeamFree("timed out");
    assert SeamFree("Connection refused");
    assert SeamFree("Connection reset");
    assert SeamFree("connection to server");
    assert SeamFree("could not connect");
    assert SeamFree("Name or service not known");
  }

  lemma OtherTransientMarkersAreSeamFree()
    ensures forall k :: 6 <= k < 12 ==> SeamFree(TRANSIENT_MARKERS[k])
  {
    assert SeamFree("Temporary failure in name resolution");
    assert SeamFree("URLError");
    assert SeamFree("HTTP Error 5");
    assert SeamFree("OperationalError");
    assert SeamFree("InterfaceError");
    assert SeamFree("did not return report");
  }

  /** Classification of two texts put together is the worse of the two. */
  lemma ClassifyAcrossSeam(d: DigitTable, a: string, sep: string, b: string)
    requires Seam(sep)
    ensures Classify(d, a + sep + b) == Worse(Classify(d, a), Classify(d, b))
  {
    CodesAcrossSeam(d, a, sep, b);
    ConfigMarkersAreSeamFree();
    TransientMarkersAreSeamFree();
    AnyAcrossSeam(a, sep, b, CONFIG_MARKERS);
    AnyAcrossSeam(a, sep, b, TRANSIENT_MARKERS);
    var ca, cb := Codes(d, a), Codes(d, b);
    MeetsUnion(ca, cb, THROTTLED_CODES);
    MeetsUnion(ca, cb, CONFIG_CODES);
    MeetsUnion(ca, cb, NOT_READY_CODES);
  }

  lemma MeetsUnion(a: set<int>, b: set<int>, codes: set<int>)
    ensures (a + b) * codes != {} <==> a * codes != {} || b * codes != {}
  {
    assert (a + b) * codes == a * codes + b * codes;
  }

  /** The worker classifies a "; "-joined text; the answer is the worst of its parts. */
  lemma {:induction false} JoinIsSummarized(d: DigitTable, messages: seq<string>)
    ensures Classify(d, Join("; ", messages)) == Summary(d, messages)
  {
    if messages == [] {
      EmptyIsUnknown(d);
    } else if |messages| > 1 {
      JoinIsSummarized(d, messages[1..]);
      ClassifyAcrossSeam(d, messages[0], "; ", Join("; ", messages[1..]));
    }
  }

  lemma {:induction false} JoinedCodes(d: DigitTable, messages: seq<string>, n: int)
    ensures n in Codes(d, Join("; ", messages)) <==> exists m :: m in messages && n in Codes(d, m)
  {
    if messages == [] {
    } else if |messages| == 1 {
      assert messages[0] in messages;
      assert forall m :: m in messages ==> m == messages[0];
    } else {
      JoinedCodes(d, messages[1..], n);
      CodesAcrossSeam(d, messages[0], "; ", Join("; ", messages[1..]));
      assert forall m :: m in messages <==> m == messages[0] || m in messages[1..];
    }
  }

  lemma EmptyIsUnknown(d: DigitTable)
    ensures Classify(d, "") == Unknown
  {
    NoRoom("", CONFIG_MARKERS);
    NoRoom("", TRANSIENT_MARKERS);
  }

  lemma NoRoom(text: string, markers: seq<string>)
    requires forall k :: 0 <= k < |markers| ==> |text| < |markers[k]|
    ensures !ContainsAny(text, markers)
  {
  }

  // Labels --------------------------------------------------------------------

  lemma MissingCharacter(text: string, m: string, k: nat)
    requires k < |m| && m[k] !in text
    ensures !Contains(text, m)
  {
    forall i | 0 <= i <= |text| - |m| ensures !OccursAt(m, text, i) {
      assert text[i..i + |m|][k] == text[i + k];
      assert text[i + k] in text;
    }
  }

  /** A text without brackets and without one letter of every marker. */
  predicate Mute(text: string) {
    forall k :: 0 <= k < |text| ==> text[k] !in {'[', 'm', 'n', 'N', 'T', 'Q', 'C', 'U', 'H', 'O', 'I'}
  }

  lemma MuteHasNoConfigMarker(text: string)
    requires Mute(text)
    ensures !ContainsAny(text, CONFIG_MARKERS)
  {
    MissingCharacter(text, "No Flex credentials", 0);
    MissingCharacter(text, "Token has expired", 0);
    MissingCharacter(text, "Token is invalid", 0);
    MissingCharacter(text, "Query is invalid", 0);
    MissingCharacter(text, "unknown job kind", 1);
    ConfigMarkersAre(text);
  }

  lemma MuteHasNoTransientMarker(text: string)
    requires Mute(text)
    ensures !ContainsAny(text, TRANSIENT_MARKERS)
  {
    MissingCharacter(text, "timed out", 2);
    MissingCharacter(text, "Connection refused", 0);
    MissingCharacter(text, "Connection reset", 0);
    MissingCharacter(text, "connection to server", 2);
    MissingCharacter(text, "could not connect", 6);
    MissingCharacter(text, "Name or service not known", 0);
    MissingCharacter(text, "Temporary failure in name resolution", 0);
    MissingCharacter(text, "URLError", 0);
    MissingCharacter(text, "HTTP Error 5", 0);
    MissingCharacter(text, "OperationalError", 0);
    MissingCharacter(text, "InterfaceError", 0);
    MissingCharacter(text, "did not return report", 4);
    TransientMarkersAre(text);
  }

  /** It says nothing by itself. */
  lemma MuteIsUnknown(d: DigitTable, text: string)
    requires Mute(text)
    ensures Classify(d, text) == Unknown
  {
    forall n | n in Codes(d, text) ensures false {
      CodesAreQuoted(d, text, n);
    }
    MuteHasNoConfigMarker(text);
    MuteHasNoTransientMarker(text);
  }

  /** The prefix _require_ok puts in front of a partial failure says nothing by itself. */
  predicate IsJobLabel(prefix: string) {
    prefix == "flex-trades partial" || prefix == "flex-transactions partial"
  }

  const LABEL_LETTERS := {'f', 'l', 'e', 'x', '-', 't', 'r', 'a', 'd', 's', 'n', 'c', 'i', 'o', 'p', ' '}

  predicate OnlyLabelLetters(text: string) {
    forall k :: 0 <= k < |text| ==> text[k] in LABEL_LETTERS
  }

  lemma TradesLabelLetters()
    ensures OnlyLabelLetters("flex-trades partial")
  {
  }

  lemma TransactionsLabelLetters()
    ensures OnlyLabelLetters("flex-transactions partial")
  {
  }

  /** A text of label letters alone holds no code and no marker. */
  lemma LabelLettersAreUnknown(d: DigitTable, text: string)
    requires OnlyLabelLetters(text)
    ensures Classify(d, text) == Unknown
  {
    forall n ensures n !in Codes(d, text) {
      CodesAreQuoted(d, text, n);
    }
    LettersHoldNoConfigMarker(text);
    LettersHoldNoNetworkMarker(text);
    LettersHoldNoOtherTransientMarker(text);
  }

  lemma LettersHoldNoConfigMarker(text: string)
    requires OnlyLabelLetters(text)
    ensures !ContainsAny(text, CONFIG_MARKERS)
  {
    MissingCharacter(text, "No Flex credentials", 0);
    MissingCharacter(text, "Token has expired", 0);
    MissingCharacter(text, "Token is invalid", 0);
    MissingCharacter(text, "Query is invalid", 0);
    MissingCharacter(text, "unknown job kind", 0);
  }

  lemma LettersHoldNoNetworkMarker(text: string)
    requires OnlyLabelLetters(text)
    ensures forall k :: 0 <= k < 6 ==> !Contains(text, TRANSIENT_MARKERS[k])
  {
    MissingCharacter(text, "timed out", 2);
    MissingCharacter(text, "Connection refused", 0);
    MissingCharacter(text, "Connection reset", 0);
    MissingCharacter(text, "connection to server", 17);
    MissingCharacter(text, "could not connect", 2);
    MissingCharacter(text, "Name or service not known", 0);
  }

  lemma LettersHoldNoOtherTransientMarker(text: string)
    requires OnlyLabelLetters(text)
    ensures forall k :: 6 <= k < 12 ==> !Contains(text, TRANSIENT_MARKERS[k])
  {
    MissingCharacter(text, "Temporary failure in name resolution", 0);
    MissingCharacter(text, "URLError", 0);
    MissingCharacter(text, "HTTP Error 5", 0);
    MissingCharacter(text, "OperationalError", 0);
    MissingCharacter(text, "InterfaceError", 0);
    MissingCharacter(text, "did not return report", 11);
  }

  lemma LabelIsUnknown(d: DigitTable, prefix: string)
    requires IsJobLabel(prefix)
    ensures Classify(d, prefix) == Unknown
  {
    if prefix == "flex-trades partial" {
      TradesLabelLetters();
    } else {
      TransactionsLabelLetters();
    }
    LabelLettersAreUnknown(d, prefix);
  }

  /** What the worker makes of a partially failed job: the worst of its queries' errors. */
  lemma PartialFailureIsSummarized(d: DigitTable, prefix: string, errors: seq<string>)
    requires IsJobLabel(prefix)
    ensures Classify(d, prefix + ": " + Join("; ", errors)) == Summary(d, errors)
  {
    JoinIsSummarized(d, errors);
    ClassifyAcrossSeam(d, prefix, ": ", Join("; ", errors));
    LabelIsUnknown(d, prefix);
  }

  // Plans ---------------------------------------------------------------------

  /** Delays in seconds. */
  datatype Policy = Policy(notReady: int, throttled: int, transient: int, unknown: int)

  const DEFAULT_POLICY := Policy(1800, 1800, 120, 300)
  const FLOOR := 30

  predicate Floored(p: Policy) {
    p.notReady >= FLOOR && p.throttled >= FLOOR && p.transient >= FLOOR && p.unknown >= FLOOR
  }

  /** A value of the YAML mapping: absent or blank, an integer, or something int() refuses. */
  datatype Setting = Absent | Number(n: int) | Garbage

  function Lookup(raw: map<string, Setting>, field: string): Setting {
    if field in raw then raw[field] else Absent
  }

  function Effective(raw: map<string, Setting>, field: string, default: int): int {
    match Lookup(raw, field)
    case Number(n) => Max(FLOOR, n)
    case _ => default
  }

  const POLICY_FIELDS := ["not_ready_delay_sec", "throttled_delay_sec", "transient_delay_sec", "unknown_delay_sec"]

  /** The delay is the configured number of seconds, but at least 30, or the default without a number. */
  predicate Delay(raw: map<string, Setting>, field: string, default: int, sec: int) {
    if field in raw && raw[field].Number? then sec == (if raw[field].n < 30 then 30 else raw[field].n)
      else sec == default
  }

  /** RetryPolicy.from_config: no configured delay is shorter than half a minute. */
  method PolicyFromConfig(raw: map<string, Setting>) returns (p: Policy)
    ensures Floored(p)
    ensures p.notReady == Effective(raw, POLICY_FIELDS[0], DEFAULT_POLICY.notReady)
    ensures p.throttled == Effective(raw, POLICY_FIELDS[1], DEFAULT_POLICY.throttled)
    ensures p.transient == Effective(raw, POLICY_FIELDS[2], DEFAULT_POLICY.transient)
    ensures p.unknown == Effective(raw, POLICY_FIELDS[3], DEFAULT_POLICY.unknown)
    ensures Delay(raw, "not_ready_delay_sec", 1800, p.notReady) && Delay(raw, "throttled_delay_sec", 1800, p.throttled)
    ensures Delay(raw, "transient_delay_sec", 120, p.transient) && Delay(raw, "unknown_delay_sec", 300, p.unknown)
  {
    var out: map<string, int> := map[];
    for k := 0 to |POLICY_FIELDS|
      invariant forall f :: f in out <==> f in POLICY_FIELDS[..k] && Lookup(raw, f).Number?
      invariant forall f :: f in out ==> out[f] == Max(FLOOR, Lookup(raw, f).n)
    {
      var field := POLICY_FIELDS[k];
      match Lookup(raw, field) {
        case Number(n) => out := out[field := Max(FLOOR, n)];
        case _ =>
      }
    }
    var got := (f: string, default: int) => if f in out then out[f] else default;
    p := Policy(
      got(POLICY_FIELDS[0], DEFAULT_POLICY.notReady),
      got(POLICY_FIELDS[1], DEFAULT_POLICY.throttled),
      got(POLICY_FIELDS[2], DEFAULT_POLICY.transient),
      got(POLICY_FIELDS[3], DEFAULT_POLICY.unknown));
  }

  datatype Plan = Final(category: Category) | Again(category: Category, delay: int, cooldown: int)

  function PlanRetry(category: Category, attempts: int, maxAttempts: int, p: Policy): Plan {
    if category == Config then Final(category)
    else if attempts >= maxAttempts then Final(category)
    else match category
      case NotReady => Again(category, p.notReady, 0)
      case Throttled => Again(category, p.throttled, p.throttled)
      case Transient => Again(category, p.transient, 0)
      case _ => Again(category, p.unknown, 0)
  }

  /** A retry needs a curable error and an attempt left, waits its own category's delay and at least the
      floor, and cools the whole queue down exactly for a throttle. */
  lemma PlanIsSound(category: Category, attempts: int, maxAttempts: int, p: Policy)
    requires Floored(p)
    ensures var plan := PlanRetry(category, attempts, maxAttempts, p);
      && plan.category == category
      && (plan.Again? <==> category != Config && attempts < maxAttempts)
      && (plan.Again? ==> plan.delay >= FLOOR)
      && (plan.Again? ==> plan.cooldown == if category == Throttled then plan.delay else 0)
      && (plan.Again? && category == NotReady ==> plan.delay == p.notReady)
      && (plan.Again? && category == Throttled ==> plan.delay == p.throttled)
      && (plan.Again? && category == Transient ==> plan.delay == p.transient)
      && (plan.Again? && category == Unknown ==> plan.delay == p.unknown)
  {
  }
}
