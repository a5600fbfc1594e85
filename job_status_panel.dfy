/**
 * The job status card (frontend/src/components/JobStatusPanel.tsx): nothing
 * without a job id; otherwise the id, a pill naming the status, a spinner
 * while the job is still running and the error text when there is one.
 */
module JobStatusPanel {
  import opened Wrappers
  import opened Types

  /** `status === "pending" || status === "running"`. */
  predicate IsRunning(status: Option<JobStatus>) {
    status == Some(Pending) || status == Some(Running)
  }

  /** A known status runs exactly when it is not terminal; an unknown one does not run. */
  lemma RunningIffNotTerminal(status: Option<JobStatus>)
    ensures status.Some? ==> (IsRunning(status) <==> !IsTerminal(status.value))
    ensures status.None? ==> !IsRunning(status)
  {
  }

  /** `status ?? "unknown"`: the pill's text and its extra class. */
  function PillLabel(status: Option<JobStatus>): (text: string)
    ensures status.None? ==> text == "unknown"
    ensures status.Some? ==> text == StatusName(status.value)
  {
    match status
    case Some(s) => StatusName(s)
    case None => "unknown"
  }

  /** Reads a pill back: the status it names, or none for "unknown". */
  function StatusOfPill(text: string): Option<JobStatus> {
    if text == "pending" then Some(Pending)
    else if text == "running" then Some(Running)
    else if text == "completed" then Some(Completed)
    else if text == "done" then Some(Done)
    else if text == "failed" then Some(Failed)
    else None
  }

  /** The pill identifies the status: reading it back gives the status, so different statuses get different pills. */
  lemma PillLabelRoundTrip(status: Option<JobStatus>)
    ensures StatusOfPill(PillLabel(status)) == status
  {
  }

  lemma PillLabelIdentifiesStatus(s1: Option<JobStatus>, s2: Option<JobStatus>)
    ensures PillLabel(s1) == PillLabel(s2) ==> s1 == s2
  {
    PillLabelRoundTrip(s1);
    PillLabelRoundTrip(s2);
  }

  datatype StatusView = StatusView(
    jobId: string,
    pill: string,
    spinner: bool,
    elapsedSeconds: real,
    error: Option<string>)

  /** The panel: `None` is the early `return null`. */
  function Render(jobId: Option<string>, status: Option<JobStatus>, error: Option<string>, elapsedSeconds: real): (v: Option<StatusView>)
    ensures v.None? <==> jobId.None? || jobId.value == ""
    ensures v.Some? ==> v.value.jobId == jobId.value && v.value.elapsedSeconds == elapsedSeconds
    ensures v.Some? ==> v.value.pill == PillLabel(status)
    ensures v.Some? ==> (v.value.spinner <==> IsRunning(status))
    ensures v.Some? ==> (v.value.error.Some? <==> error.Some? && error.value != "")
    ensures v.Some? && v.value.error.Some? ==> v.value.error == error
  {
    if jobId.None? || jobId.value == "" then None
    else
      var shownError := if error.Some? && error.value != "" then error else None;
      Some(StatusView(jobId.value, PillLabel(status), IsRunning(status), elapsedSeconds, shownError))
  }

  /** A finished job shows no spinner; a pending or running one always does. */
  lemma SpinnerOnlyWhileRunning(jobId: string, status: JobStatus, error: Option<string>, elapsed: real)
    requires jobId != ""
    ensures Render(Some(jobId), Some(status), error, elapsed).Some?
    ensures Render(Some(jobId), Some(status), error, elapsed).value.spinner <==> !IsTerminal(status)
  {
    RunningIffNotTerminal(Some(status));
  }
}
