/**
 * The mock-analysis form (frontend/src/App.tsx): three input fields and the
 * `result` / `loading` / `error` state that `onSubmit` drives through its
 * try / catch / finally. The remote call `analyzeMock` is a parameter that
 * maps the request to what the awaited promise settles with.
 */
module App {
  import opened Wrappers
  import opened Types

  datatype AnalyzeRequest = AnalyzeRequest(climbName: string, wallAngle: JsNumber, attempts: JsNumber)

  datatype AnalyzeResponse = AnalyzeResponse(
    climbName: string,
    gradeEstimate: string,
    confidence: real,
    notes: seq<string>)

  /** What a rejected call throws: an `Error` with its message, or any other value. */
  datatype Thrown = ErrorValue(message: string) | OtherValue

  datatype CallOutcome = Returned(response: AnalyzeResponse) | Threw(thrown: Thrown)

  /** `err instanceof Error ? err.message : "Unknown error"`. */
  function ErrorMessage(t: Thrown): (m: string)
    ensures t.ErrorValue? ==> m == t.message
    ensures t.OtherValue? ==> m == "Unknown error"
  {
    match t
    case ErrorValue(msg) => msg
    case OtherValue => "Unknown error"
  }

  class AppState {
    var climbName: string
    var wallAngle: JsNumber
    var attempts: JsNumber
    var result: Option<AnalyzeResponse>
    var loading: bool
    var error: Option<string>

    /** The `useState` initial values. */
    constructor ()
      ensures climbName == "Blue Arete" && wallAngle == Num(35.0) && attempts == Num(4.0)
      ensures result == None && !loading && error == None
    {
      climbName := "Blue Arete";
      wallAngle := Num(35.0);
      attempts := Num(4.0);
      result := None;
      loading := false;
      error := None;
    }

    /** The submit button is disabled while a call is in flight. */
    predicate SubmitDisabled()
      reads this
    {
      loading
    }

    /** The error paragraph renders only for a non-empty message. */
    predicate ErrorShown()
      reads this
    {
      error.Some? && error.value != ""
    }

    /** The request built from the current field values. */
    function CurrentRequest(): (req: AnalyzeRequest)
      reads this
      ensures req.climbName == climbName && req.wallAngle == wallAngle && req.attempts == attempts
    {
      AnalyzeRequest(climbName, wallAngle, attempts)
    }

    method SetClimbName(text: string)
      modifies this
      ensures climbName == text
      ensures wallAngle == old(wallAngle) && attempts == old(attempts)
      ensures result == old(result) && loading == old(loading) && error == old(error)
    {
      climbName := text;
    }

    /** `setWallAngle(Number(e.target.value))`: the parsed input, NaN included. */
    method SetWallAngle(n: JsNumber)
      modifies this
      ensures wallAngle == n
      ensures climbName == old(climbName) && attempts == old(attempts)
      ensures result == old(result) && loading == old(loading) && error == old(error)
    {
      wallAngle := n;
    }

    method SetAttempts(n: JsNumber)
      modifies this
      ensures attempts == n
      ensures climbName == old(climbName) && wallAngle == old(wallAngle)
      ensures result == old(result) && loading == old(loading) && error == old(error)
    {
      attempts := n;
    }

    /** Before the call: loading on, error cleared, the previous result still shown. */
    method BeginSubmit() returns (req: AnalyzeRequest)
      modifies this
      ensures loading && error == None
      ensures result == old(result)
      ensures climbName == old(climbName) && wallAngle == old(wallAngle) && attempts == old(attempts)
      ensures req == AnalyzeRequest(climbName, wallAngle, attempts)
    {
      loading := true;
      error := None;
      req := CurrentRequest();
    }

    /** The `try` / `catch` / `finally` once the call has settled. */
    method FinishSubmit(outcome: CallOutcome)
      modifies this
      ensures !loading
      ensures outcome.Returned? ==> result == Some(outcome.response) && error == old(error)
      ensures outcome.Threw? ==> result == old(result) && error == Some(ErrorMessage(outcome.thrown))
      ensures climbName == old(climbName) && wallAngle == old(wallAngle) && attempts == old(attempts)
    {
      match outcome {
        case Returned(data) =>
          result := Some(data);
        case Threw(t) =>
          error := Some(ErrorMessage(t));
      }
      loading := false;
    }

    /** `onSubmit`: one call with the current fields; afterwards loading is off again whatever happened. */
    method Submit(analyze: AnalyzeRequest -> CallOutcome) returns (sent: AnalyzeRequest)
      modifies this
      ensures sent == old(AnalyzeRequest(climbName, wallAngle, attempts))
      ensures !loading
      ensures analyze(sent).Returned? ==> result == Some(analyze(sent).response) && error == None
      ensures analyze(sent).Threw? ==> result == old(result) && error == Some(ErrorMessage(analyze(sent).thrown))
      ensures climbName == old(climbName) && wallAngle == old(wallAngle) && attempts == old(attempts)
    {
      sent := BeginSubmit();
      FinishSubmit(analyze(sent));
    }
  }
}
