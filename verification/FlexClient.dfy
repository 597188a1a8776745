/** client/flex_client.py: the ValueErrors a fetch can end with, and what the rest of the service
    reads out of their texts. */
module FlexClient {
  import opened Prelude
  import opened Retry
  import opened Statement

  /** Every ValueError on the way from SendRequest through GetStatement to the parsed rows. */
  datatype Refusal =
    | SpanTooLong
    | BadDate(why: string)
    | OneDate
    | SendFailed(why: string)
    | Refused(code: string, text: string)
    | NoReference
    | NoReport(why: string)
    | WrongReport
    | BadNumber(why: string)

  // Texts of several sentences, in parts.
  const SPAN_ERROR := SPAN_LIMIT + SPAN_ADVICE + SPAN_DEFAULT
  const SPAN_LIMIT := "Date range cannot exceed " + "366 days (IB Flex limit). "
  const SPAN_ADVICE := "Use from_date and to_date " + "within 366 days, or omit "
  const SPAN_DEFAULT := "both to use the query " + "default period (e.g. Last " + "365 Calendar Days)."
  const ONE_DATE := "When overriding dates, both " + "from_date and to_date are " + "required (yyyyMMdd)."
  const BAD_DATE := "from_date and to_date must be " + "yyyyMMdd format: "
  const WRONG_REPORT :=
    "Flex report contains Cash " + "Transactions, not Trades. "
    + "Use a Flex Query that " + "includes Activity \U{2192} Trades " + "(not Cash Transactions). "
    + "In Settings \U{2192} IB Connection " + "\U{2192} Flex, ensure the row with "
    + "purpose=trades uses a Query " + "ID that returns Trades."

  function Message(r: Refusal): string {
    match r
    case SpanTooLong => SPAN_ERROR
    case BadDate(why) => BAD_DATE + why
    case OneDate => ONE_DATE
    case SendFailed(why) => "Flex SendRequest failed" + ": " + why
    case Refused(code, text) => "Flex request failed" + ": " + ("[" + code + "] " + text)
    case NoReference => "Flex SendRequest returned " + "no ReferenceCode"
    case NoReport(why) => GIVE_UP + ": " + why
    case WrongReport => WRONG_REPORT
    case BadNumber(why) => "invalid literal for int() " + "with base 10: " + why
  }

  /** No refusal is blank, so none is taken for no error at all. */
  lemma MessageSpeaks(r: Refusal)
    ensures !Blank(Message(r))
  {
    assert !IsSpace(Message(r)[0]) by {
      match r
      case SpanTooLong => assert Message(r)[0] == 'D';
      case BadDate(_) => assert Message(r)[0] == 'f';
      case OneDate => assert Message(r)[0] == 'W';
      case BadNumber(_) => assert Message(r)[0] == 'i';
      case _ => assert Message(r)[0] == 'F';
    }
  }

  /** The fallback chains' test for error 1003. */
  predicate Unavailable(message: string) {
    Contains(message, "[1003]") || Contains(message, "Statement is not available")
  }

  predicate Plain(text: string) {
    forall k :: 0 <= k < |text| ==> text[k] != '[' && text[k] != 'S'
  }

  lemma LimitIsPlain()
    ensures Plain(SPAN_LIMIT)
  {
    assert Plain("Date range cannot exceed ") && Plain("366 days (IB Flex limit). ");
  }

  lemma AdviceIsPlain()
    ensures Plain(SPAN_ADVICE)
  {
    assert Plain("Use from_date and to_date ") && Plain("within 366 days, or omit ");
  }

  lemma DefaultIsPlain()
    ensures Plain(SPAN_DEFAULT)
  {
    assert Plain("both to use the query ") && Plain("default period (e.g. Last ") && Plain("365 Calendar Days).");
  }

  /** The refusal of an over-long range is not one the fallback chains react to. */
  lemma SpanErrorIsFinal()
    ensures !Unavailable(Message(SpanTooLong))
  {
    LimitIsPlain();
    AdviceIsPlain();
    DefaultIsPlain();
    assert Plain(SPAN_ERROR);
    MissingCharacter(SPAN_ERROR, "[1003]", 0);
    MissingCharacter(SPAN_ERROR, "Statement is not available", 0);
  }

  // What the worker makes of a refusal -------------------------------------------------

  /** A four-digit error code of IB. */
  ghost predicate IsCode(d: DigitTable, code: string, n: int) {
    && |code| == 4 && (forall k :: 0 <= k < 4 ==> d(code[k]) >= 0)
    && n == 1000 * d(code[0]) + 100 * d(code[1]) + 10 * d(code[2]) + d(code[3])
  }

  /** Another text without brackets and without one letter of every marker. */
  predicate Hushed(text: string) {
    forall k :: 0 <= k < |text| ==> text[k] !in {'[', 'c', 'k', 'm', 'o', 'N', 'T', 'Q', 'C', 'U', 'H', 'O', 'I'}
  }

  lemma HushedHasNoConfigMarker(text: string)
    requires Hushed(text)
    ensures !ContainsAny(text, CONFIG_MARKERS)
  {
    MissingCharacter(text, "No Flex credentials", 0);
    MissingCharacter(text, "Token has expired", 0);
    MissingCharacter(text, "Token is invalid", 0);
    MissingCharacter(text, "Query is invalid", 0);
    MissingCharacter(text, "unknown job kind", 2);
    ConfigMarkersAre(text);
  }

  lemma HushedHasNoTransientMarker(text: string)
    requires Hushed(text)
    ensures !ContainsAny(text, TRANSIENT_MARKERS)
  {
    MissingCharacter(text, "timed out", 2);
    MissingCharacter(text, "Connection refused", 0);
    MissingCharacter(text, "Connection reset", 0);
    MissingCharacter(text, "connection to server", 0);
    MissingCharacter(text, "could not connect", 0);
    MissingCharacter(text, "Name or service not known", 0);
    MissingCharacter(text, "Temporary failure in name resolution", 0);
    MissingCharacter(text, "URLError", 0);
    MissingCharacter(text, "HTTP Error 5", 0);
    MissingCharacter(text, "OperationalError", 0);
    MissingCharacter(text, "InterfaceError", 0);
    MissingCharacter(text, "did not return report", 5);
    TransientMarkersAre(text);
  }

  lemma SendFailedIsUnknown(d: DigitTable)
    ensures Classify(d, "Flex SendRequest failed") == Unknown
  {
    var text := "Flex SendRequest failed";
    assert Hushed(text);
    forall n | n in Codes(d, text) ensures false {
      CodesAreQuoted(d, text, n);
    }
    HushedHasNoConfigMarker(text);
    HushedHasNoTransientMarker(text);
  }

  /** A request that could not be sent has the category of its reason, so a server error passes by itself. */
  lemma SendFailureIsItsReason(d: DigitTable, why: string)
    ensures Classify(d, Message(SendFailed(why))) == Classify(d, why)
  {
    SendFailedIsUnknown(d);
    ClassifyAcrossSeam(d, "Flex SendRequest failed", ": ", why);
    assert Message(SendFailed(why)) == "Flex SendRequest failed" + ": " + why;
  }

  /** The code IB gives for refusing a request is among those the worker reads. */
  lemma RefusalShowsItsCode(d: DigitTable, code: string, text: string, n: int)
    requires IsCode(d, code, n)
    ensures n in Codes(d, Message(Refused(code, text)))
  {
    var tail := "[" + code + "] " + text;
    assert tail[0] == '[' && tail[1] == code[0] && tail[2] == code[1] && tail[3] == code[2] && tail[4] == code[3] &&
      tail[5] == ']';
    assert CodeAt(d, tail, 0) && CodeValue(d, tail, 0) == n;
    CodesAreQuoted(d, tail, n);
    CodesAcrossSeam(d, "Flex request failed", ": ", tail);
  }

  /** A refused token is always a throttle, and a code of a configuration error is never retried as
      something milder. */
  lemma RefusalIsItsCode(d: DigitTable, code: string, text: string, n: int)
    requires IsCode(d, code, n)
    ensures n == 1018 ==> Classify(d, Message(Refused(code, text))) == Throttled
    ensures n in CONFIG_CODES ==> Rank(Classify(d, Message(Refused(code, text)))) <= Rank(Category.Config)
    ensures n in NOT_READY_CODES ==> Rank(Classify(d, Message(Refused(code, text)))) <= Rank(NotReady)
  {
    RefusalShowsItsCode(d, code, text, n);
    var codes := Codes(d, Message(Refused(code, text)));
    assert n in THROTTLED_CODES ==> n in codes * THROTTLED_CODES;
    assert n in CONFIG_CODES ==> n in codes * CONFIG_CODES;
    assert n in NOT_READY_CODES ==> n in codes * NOT_READY_CODES;
  }
}
