/** client/flex_client.py: the polling of GetStatement, and what the worker makes of giving up. */
module Statement {
  import opened Prelude
  import opened Retry

  const MAX_POLLS: nat := 24

  /** One poll: a generated report, a body that is none or an HTTP error (both polled again), or
      another exception. */
  datatype Poll = Report(body: string) | NotYet(why: string) | Broken(error: string)

  datatype Statement = Got(body: string) | GaveUp(message: string) | Threw(error: string)

  // The message up to its last seam, in parts.
  const GIVE_UP := GIVE_UP_HEAD + (NO_REPORT + GIVE_UP_TAIL)
  const GIVE_UP_HEAD := "Flex GetStatement "
  const NO_REPORT := "did not return report"
  const GIVE_UP_TAIL := " after 24 attempts. Last"

  /** Polls 0 .. n-1 all have to be repeated. */
  ghost predicate Unready(ib: nat -> Poll, n: nat) {
    forall i: nat :: i < n ==> ib(i).NotYet?
  }

  /** get_statement: the first report there is, or, after 24 polls without, the last reason. */
  method GetStatement(ib: nat -> Poll) returns (r: Statement)
    ensures r.Got? ==> exists n: nat :: n < MAX_POLLS && Unready(ib, n) && ib(n) == Report(r.body)
    ensures r.Threw? ==> exists n: nat :: n < MAX_POLLS && Unready(ib, n) && ib(n) == Broken(r.error)
    ensures r.GaveUp? <==> forall i: nat :: i < 24 ==> ib(i).NotYet?
    ensures r.GaveUp? ==> r.message == GIVE_UP + ": " + ib(MAX_POLLS - 1).why
  {
    var lastErr: Option<string> := None;
    var n: nat := 0;
    while n < MAX_POLLS
      invariant n <= MAX_POLLS && Unready(ib, n)
      invariant n > 0 ==> lastErr == Some(ib(n - 1).why)
    {
      match ib(n) {
        case Report(body) => return Got(body);
        case Broken(error) => return Threw(error);
        case NotYet(why) => lastErr := Some(why);
      }
      n := n + 1;
    }
    return GaveUp(GIVE_UP + ": " + (match lastErr case Some(why) => why case None => "None"));
  }

  predicate Quiet(text: string) {
    forall k :: 0 <= k < |text| ==> text[k] !in {'[', 'N', 'T', 'Q', 'k'}
  }

  lemma GiveUpIsQuiet()
    ensures Quiet(GIVE_UP)
  {
    assert Quiet(GIVE_UP_HEAD);
    assert Quiet(NO_REPORT);
    assert Quiet(GIVE_UP_TAIL);
  }

  lemma QuietIsNoConfig(d: DigitTable, text: string)
    requires Quiet(text)
    ensures Codes(d, text) == {} && !ContainsAny(text, CONFIG_MARKERS)
  {
    forall n | n in Codes(d, text) ensures false {
      CodesAreQuoted(d, text, n);
    }
    MissingCharacter(text, "No Flex credentials", 0);
    MissingCharacter(text, "Token has expired", 0);
    MissingCharacter(text, "Token is invalid", 0);
    MissingCharacter(text, "Query is invalid", 0);
    MissingCharacter(text, "unknown job kind", 2);
  }

  lemma GiveUpIsTransient(d: DigitTable)
    ensures Classify(d, GIVE_UP) == Transient
  {
    GiveUpIsQuiet();
    QuietIsNoConfig(d, GIVE_UP);
    assert OccursAt(NO_REPORT, GIVE_UP, |GIVE_UP_HEAD|);
    assert TRANSIENT_MARKERS[11] == NO_REPORT;
  }

  /** Giving up is retried as what IB last said, and as transient when that says nothing worse. */
  lemma GivingUpKeepsTheCode(d: DigitTable, why: string)
    ensures Classify(d, GIVE_UP + ": " + why) == Worse(Transient, Classify(d, why))
  {
    GiveUpIsTransient(d);
    ClassifyAcrossSeam(d, GIVE_UP, ": ", why);
  }
}
