/** worker/handlers.py and api/manual_ops.py: when an attempt, or a manual run, counts as done. */
module Handlers {
  import opened Prelude
  import opened Retry

  /** The `ok` entry of an answer, which may be missing from the mapping. */
  datatype Okay = Yes | No | Missing

  datatype Result = Result(ok: Okay, error: string, errors: seq<string>, count: int)

  datatype Verdict = Done(inserted: int) | Raise(message: string)

  function Spoken(errors: seq<string>): seq<string> {
    if errors == [] then []
    else (if Blank(errors[0]) then [] else [errors[0]]) + Spoken(errors[1..])
  }

  lemma {:induction false} SpokenKeepsNonBlank(errors: seq<string>)
    ensures forall e :: e in Spoken(errors) <==> e in errors && !Blank(e)
  {
    if errors != [] {
      SpokenKeepsNonBlank(errors[1..]);
    }
  }

  lemma SpokenEmpty(errors: seq<string>)
    ensures Spoken(errors) == [] <==> forall e :: e in errors ==> Blank(e)
  {
    SpokenKeepsNonBlank(errors);
    if Spoken(errors) != [] {
      assert Spoken(errors)[0] in Spoken(errors);
    }
  }

  /** _require_ok: the answer's own error when it is not ok, else its errors that are not blank, else done. */
  function RequireOk(r: Result, kind: string): (v: Verdict)
    ensures r.ok.No? && r.error != "" ==> v == Raise(r.error)
    ensures r.ok.No? && r.error == "" ==> v == Raise(kind + " failed")
    ensures !r.ok.No? ==> (v.Raise? <==> exists e :: e in r.errors && !Blank(e))
    ensures v.Done? ==> v.inserted == r.count
  {
    SpokenEmpty(r.errors);
    if r.ok.No? then Raise(if r.error != "" then r.error else kind + " failed")
    else if Spoken(r.errors) != [] then Raise(kind + " partial: " + Join("; ", Spoken(r.errors)))
    else Done(r.count)
  }

  /** The test of _audit_finish. */
  predicate AuditOk(r: Result)
    ensures AuditOk(r) <==> r.ok == Yes && forall e :: e in r.errors ==> Blank(e)
  {
    SpokenEmpty(r.errors);
    r.ok.Yes? && Spoken(r.errors) == []
  }

  /** A manual run is done by the worker's criterion, except that it wants `ok` to be there. */
  lemma ManualAgreesWithWorker(r: Result, kind: string)
    ensures AuditOk(r) <==> RequireOk(r, kind).Done? && !r.ok.Missing?
  {
  }

  /** What the worker classifies when some queries failed is the worst of their errors. */
  lemma PartialFailureCategory(d: DigitTable, r: Result, kind: string)
    requires kind == "flex-trades" || kind == "flex-transactions"
    requires !r.ok.No? && Spoken(r.errors) != []
    ensures RequireOk(r, kind).Raise?
    ensures Classify(d, RequireOk(r, kind).message) == Summary(d, Spoken(r.errors))
  {
    var prefix := kind + " partial";
    PartialFailureIsSummarized(d, prefix, Spoken(r.errors));
    assert kind + " partial: " + Join("; ", Spoken(r.errors)) == prefix + ": " + Join("; ", Spoken(r.errors));
  }

  /** The error _audit_finish records for a run that is not ok. */
  function AuditError(r: Result): (error: string)
    ensures r.error != "" ==> error == r.error
  {
    if r.error != "" then r.error
    else if Join("; ", Spoken(r.errors)) != "" then Join("; ", Spoken(r.errors))
    else "manual run failed"
  }

  /** A failed manual run has the category a queued attempt with the same answer has, be it a whole
      failure or one of some queries. */
  lemma ManualFailureCategory(d: DigitTable, r: Result, kind: string)
    requires kind == "flex-trades" || kind == "flex-transactions"
    requires (r.ok.No? && r.error != "") || (!r.ok.No? && r.error == "" && Spoken(r.errors) != [])
    ensures RequireOk(r, kind).Raise?
    ensures Classify(d, AuditError(r)) == Classify(d, RequireOk(r, kind).message)
  {
    if r.ok.No? {
      return;
    }
    var spoken := Spoken(r.errors);
    SpokenKeepsNonBlank(r.errors);
    assert spoken[0] in spoken;
    assert |Join("; ", spoken)| >= |spoken[0]| > 0;
    JoinIsSummarized(d, spoken);
    PartialFailureCategory(d, r, kind);
  }

  /** dispatch: the handler's verdict, between connecting and writing the freshness row. */
  function Dispatch(connectError: Option<string>, verdict: Verdict, recordError: Option<string>): (v: Verdict)
    ensures v.Done? <==> connectError.None? && verdict.Done? && recordError.None?
    ensures connectError.None? && (verdict.Raise? || v.Done?) ==> v == verdict
    ensures connectError.Some? ==> v == Raise(connectError.value)
    ensures connectError.None? && verdict.Done? && recordError.Some? ==> v == Raise(recordError.value)
  {
    match (connectError, verdict, recordError)
    case (Some(e), _, _) => Raise(e)
    case (None, Raise(m), _) => Raise(m)
    case (None, Done(n), Some(e)) => Raise(e)
    case (None, Done(n), None) => Done(n)
  }
}
