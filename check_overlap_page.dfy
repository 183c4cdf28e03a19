/** The upload page: `handleUpload` and the loading, error and results state
    it drives. The network call is replaced by the outcome it produced. */
module CheckOverlapPage {
  import opened Wrappers
  import opened Text
  import opened Overlap

  const HttpErrorPrefix: string := "HTTP error! status: "
  const GenericErrorText: string := "An error occurred"

  /** A value caught by the `catch` block: an `Error` instance (which has a
      message) or anything else. */
  datatype Thrown = ErrorInstance(message: string) | NonErrorValue

  /** How the request ended: a response whose status is not in the 2xx range,
      an exception (from `fetch` or from reading the body), or a parsed
      `{status, message, data}` envelope. */
  datatype FetchOutcome =
    | HttpNotOk(statusCode: int)
    | Threw(thrown: Thrown)
    | Responded(status: bool, message: string, data: seq<OverlapResult>)

  /** The message of the `Error` thrown for a non-ok response; the status code
      reads back from its tail. */
  function HttpErrorMessage(statusCode: int): (s: string)
    ensures |s| > |HttpErrorPrefix| && s[..|HttpErrorPrefix|] == HttpErrorPrefix
    ensures DecimalValue(s[|HttpErrorPrefix|..]) == statusCode
  {
    var s := HttpErrorPrefix + DecimalString(statusCode);
    assert s[|HttpErrorPrefix|..] == DecimalString(statusCode);
    DecimalRoundTrip(statusCode);
    s
  }

  /** `err instanceof Error ? err.message : 'An error occurred'` */
  function CaughtText(t: Thrown): string {
    match t
    case ErrorInstance(message) => message
    case NonErrorValue => GenericErrorText
  }

  class CheckOverlap {
    var results: Option<seq<OverlapResult>>
    var loading: bool
    var error: Option<string>

    constructor ()
      ensures results == None && !loading && error == None
    {
      results := None;
      loading := false;
      error := None;
    }

    /** The state just before the request is sent. */
    method StartUpload()
      modifies this
      ensures loading && error == None && results == None
    {
      loading := true;
      error := None;
      results := None;
    }

    /** The `try`/`catch`/`finally` after the request: record the data or the
        error, then always clear the loading flag. */
    method FinishUpload(outcome: FetchOutcome)
      modifies this
      ensures !loading
      ensures outcome.HttpNotOk? ==>
        error == Some(HttpErrorMessage(outcome.statusCode)) && results == old(results)
      ensures outcome.Threw? ==> error == Some(CaughtText(outcome.thrown)) && results == old(results)
      ensures outcome.Responded? && outcome.status ==> results == Some(outcome.data) && error == old(error)
      ensures outcome.Responded? && !outcome.status ==> error == Some(outcome.message) && results == old(results)
    {
      var caught: Option<Thrown> := None;
      match outcome {
        case HttpNotOk(code) =>
          caught := Some(ErrorInstance(HttpErrorMessage(code)));
        case Threw(t) =>
          caught := Some(t);
        case Responded(status, message, data) =>
          if status {
            results := Some(data);
          } else {
            error := Some(message);
          }
      }
      if caught.Some? {
        error := Some(CaughtText(caught.value));
      }
      loading := false;
    }

    /** `handleUpload`: one request from start to its outcome. Afterwards the
        loading flag is off and exactly one of `error` and `results` is set. */
    method HandleUpload(outcome: FetchOutcome)
      modifies this
      ensures !loading
      ensures error.Some? != results.Some?
      ensures results.Some? <==> outcome.Responded? && outcome.status
      ensures outcome.Responded? && outcome.status ==> results == Some(outcome.data)
      ensures outcome.Responded? && !outcome.status ==> error == Some(outcome.message)
      ensures outcome.HttpNotOk? ==> error == Some(HttpErrorMessage(outcome.statusCode))
      ensures outcome.Threw? && outcome.thrown.ErrorInstance? ==> error == Some(outcome.thrown.message)
      ensures outcome.Threw? && outcome.thrown.NonErrorValue? ==> error == Some(GenericErrorText)
    {
      StartUpload();
      FinishUpload(outcome);
    }
  }
}
