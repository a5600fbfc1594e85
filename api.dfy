/**
 * The request and error policy of the typed client wrappers
 * (frontend/src/lib/api.ts). `fetch` is a parameter that maps a request to
 * a response or to a network failure; a response is an abstract record of
 * its status line, its raw bytes and what `response.json()` would decode
 * from them. A path is the list of segments after the configured base URL.
 */
module Api {
  import opened Wrappers
  import opened Text
  import opened Types

  datatype Json =
    | JNull
    | JBool(b: bool)
    | JNumber(n: real)
    | JString(s: string)
    | JArray(items: seq<Json>)
    | JObject(fields: map<string, Json>)

  /** A browser `File`. */
  datatype FileRef = FileRef(name: string, bytes: seq<bv8>)

  datatype HttpMethod = Get | Post

  datatype Body = NoBody | Form(parts: seq<(string, FileRef)>) | JsonText(value: Json)

  datatype Request = Request(
    verb: HttpMethod,
    path: seq<string>,
    query: seq<(string, string)>,
    headers: seq<(string, string)>,
    body: Body)

  /** `json` is `None` when the body is not valid JSON (so `response.json()` rejects). */
  datatype Response = Response(status: nat, statusText: string, bytes: seq<bv8>, json: Option<Json>)

  datatype FetchOutcome = Responded(response: Response) | NetworkFailure

  /** What a wrapper's promise rejects with. */
  datatype ApiError =
    | HttpError(message: string)   // the `Error` thrown on a non-ok response
    | DecodeError                  // `response.json()` rejected on an ok response
    | NetworkError                 // `fetch` itself rejected

  /** The requests a wrapper sent, in order, and how its promise settled. */
  datatype Exchange<T> = Exchange(sent: seq<Request>, result: Result<T, ApiError>)

  type Fetch = Request -> FetchOutcome

  /** `response.ok`. */
  predicate IsOk(r: Response) {
    200 <= r.status <= 299
  }

  /** `${response.status} ${response.statusText}`. */
  function StatusLine(r: Response): string {
    ToDecimal(r.status) + " " + r.statusText
  }

  /** `data.detail` when the body decodes to an object whose `detail` is a string. */
  function Detail(json: Option<Json>): Option<string> {
    if json.Some? && json.value.JObject? && "detail" in json.value.fields && json.value.fields["detail"].JString?
    then Some(json.value.fields["detail"].s)
    else None
  }

  /** `parseError`: the body's string `detail`, otherwise the status line. */
  function ParseError(r: Response): (message: string)
    ensures Detail(r.json).Some? ==> message == Detail(r.json).value
    ensures Detail(r.json).None? ==> message == StatusLine(r)
  {
    match Detail(r.json)
    case Some(d) => d
    case None => StatusLine(r)
  }

  /** The status code is what the status line holds before its first space. */
  lemma StatusLineRecoversStatus(r: Response)
    ensures var line := StatusLine(r);
      var k := IndexOf(line, ' ');
      k < |line| && AllDigits(line[..k]) && ValueOf(line[..k]) == r.status && line[k + 1..] == r.statusText
  {
    var line := StatusLine(r);
    var digits := ToDecimal(r.status);
    assert line[|digits|] == ' ';
    forall i | 0 <= i < |digits| ensures line[i] != ' ' {
      assert line[i] == digits[i] && IsDigit(digits[i]);
    }
    IndexOfIs(line, ' ', |digits|);
    assert line[..|digits|] == digits;
    assert line[|digits| + 1..] == r.statusText;
    ValueOfToDecimal(r.status);
  }

  /** `request`: one `fetch`; a non-ok response rejects with `parseError`'s message, an ok one yields its JSON. */
  function Send(fetch: Fetch, req: Request): (x: Exchange<Json>)
    ensures x.sent == [req]
    ensures fetch(req).NetworkFailure? ==> x.result == Failure(NetworkError)
    ensures fetch(req).Responded? && !IsOk(fetch(req).response) ==>
      x.result == Failure(HttpError(ParseError(fetch(req).response)))
    ensures fetch(req).Responded? && IsOk(fetch(req).response) ==>
      x.result == (if fetch(req).response.json.Some? then Success(fetch(req).response.json.value) else Failure(DecodeError))
  {
    match fetch(req)
    case NetworkFailure => Exchange([req], Failure(NetworkError))
    case Responded(resp) =>
      if !IsOk(resp) then Exchange([req], Failure(HttpError(ParseError(resp))))
      else if resp.json.None? then Exchange([req], Failure(DecodeError))
      else Exchange([req], Success(resp.json.value))
  }

  /** Every request a wrapper can send, with the identifier it carries. */
  datatype Route =
    | UploadRoute
    | ProcessRoute(videoId: string, model: PoseModel)
    | JobRoute(jobId: string)
    | ResultsRoute(videoId: string)
    | OverlayRoute(videoId: string)
    | KeypointsRoute(videoId: string)

  function ModelOfName(name: string): Option<PoseModel> {
    if name == "openpose" then Some(OpenPose)
    else if name == "mediapipe" then Some(MediaPipe)
    else None
  }

  /** Which operation a request is for, read back from its method, path and query alone. */
  function RouteOf(req: Request): Option<Route> {
    var p := req.path;
    var q := req.query;
    if req.verb == Post && p == ["videos", "upload"] && q == [] then Some(UploadRoute)
    else if req.verb == Post && |p| == 3 && p[0] == "videos" && p[2] == "process"
            && |q| == 1 && q[0].0 == "model" && ModelOfName(q[0].1).Some?
    then Some(ProcessRoute(p[1], ModelOfName(q[0].1).value))
    else if req.verb == Get && |p| == 2 && p[0] == "jobs" && q == [] then Some(JobRoute(p[1]))
    else if req.verb == Get && |p| == 3 && p[0] == "videos" && p[2] == "results" && q == []
    then Some(ResultsRoute(p[1]))
    else if req.verb == Get && |p| == 3 && p[0] == "videos" && p[2] == "download" && q == [("type", "overlay")]
    then Some(OverlayRoute(p[1]))
    else if req.verb == Get && |p| == 3 && p[0] == "videos" && p[2] == "download" && q == [("type", "keypoints")]
    then Some(KeypointsRoute(p[1]))
    else None
  }

  function UploadRequest(file: FileRef): Request {
    Request(Post, ["videos", "upload"], [], [], Form([("file", file)]))
  }

  /** `model` travels in the query string only; the body has the other three options. */
  function StartRequest(videoId: string, config: StartProcessConfig): Request {
    Request(
      Post, ["videos", videoId, "process"], [("model", ModelName(config.model))],
      [("Content-Type", "application/json")],
      JsonText(JObject(map[
        "every_n_frames" := JNumber(config.everyNFrames),
        "output_resolution" := JString(ResolutionName(config.outputResolution)),
        "save_intermediate_frames" := JBool(config.saveIntermediateFrames)])))
  }

  function JobRequest(jobId: string): Request {
    Request(Get, ["jobs", jobId], [], [], NoBody)
  }

  function ResultsRequest(videoId: string): Request {
    Request(Get, ["videos", videoId, "results"], [], [], NoBody)
  }

  function DownloadRequest(videoId: string, kind: string): Request {
    Request(Get, ["videos", videoId, "download"], [("type", kind)], [], NoBody)
  }

  function UploadVideo(fetch: Fetch, file: FileRef): Exchange<Json> {
    Send(fetch, UploadRequest(file))
  }

  function StartProcess(fetch: Fetch, videoId: string, config: StartProcessConfig): Exchange<Json> {
    Send(fetch, StartRequest(videoId, config))
  }

  function GetJob(fetch: Fetch, jobId: string): Exchange<Json> {
    Send(fetch, JobRequest(jobId))
  }

  function GetResults(fetch: Fetch, videoId: string): Exchange<Json> {
    Send(fetch, ResultsRequest(videoId))
  }

  /** `downloadOverlay`: the same error path as `request`, but the raw bytes on success, never decoded. */
  function DownloadOverlay(fetch: Fetch, videoId: string): (x: Exchange<seq<bv8>>)
    ensures x.sent == [DownloadRequest(videoId, "overlay")]
    ensures var out := fetch(DownloadRequest(videoId, "overlay"));
      && (out.NetworkFailure? ==> x.result == Failure(NetworkError))
      && (out.Responded? && !IsOk(out.response) ==> x.result == Failure(HttpError(ParseError(out.response))))
      && (out.Responded? && IsOk(out.response) ==> x.result == Success(out.response.bytes))
  {
    var req := DownloadRequest(videoId, "overlay");
    match fetch(req)
    case NetworkFailure => Exchange([req], Failure(NetworkError))
    case Responded(resp) =>
      if !IsOk(resp) then Exchange([req], Failure(HttpError(ParseError(resp))))
      else Exchange([req], Success(resp.bytes))
  }

  function DownloadKeypoints(fetch: Fetch, videoId: string): Exchange<Json> {
    Send(fetch, DownloadRequest(videoId, "keypoints"))
  }

  /** Each wrapper sends exactly one request, to its own fixed endpoint. */
  lemma WrappersHitTheirEndpoints(fetch: Fetch, file: FileRef, videoId: string, jobId: string, config: StartProcessConfig)
    ensures |UploadVideo(fetch, file).sent| == 1 && RouteOf(UploadVideo(fetch, file).sent[0]) == Some(UploadRoute)
    ensures |StartProcess(fetch, videoId, config).sent| == 1
      && RouteOf(StartProcess(fetch, videoId, config).sent[0]) == Some(ProcessRoute(videoId, config.model))
    ensures |GetJob(fetch, jobId).sent| == 1 && RouteOf(GetJob(fetch, jobId).sent[0]) == Some(JobRoute(jobId))
    ensures |GetResults(fetch, videoId).sent| == 1
      && RouteOf(GetResults(fetch, videoId).sent[0]) == Some(ResultsRoute(videoId))
    ensures |DownloadOverlay(fetch, videoId).sent| == 1
      && RouteOf(DownloadOverlay(fetch, videoId).sent[0]) == Some(OverlayRoute(videoId))
    ensures |DownloadKeypoints(fetch, videoId).sent| == 1
      && RouteOf(DownloadKeypoints(fetch, videoId).sent[0]) == Some(KeypointsRoute(videoId))
  {
    match config.model
    case OpenPose =>
    case MediaPipe =>
  }

  /** A server that answers every request with a non-ok status: every wrapper rejects with `parseError`'s message. */
  lemma NonOkAlwaysRejects(fetch: Fetch, file: FileRef, videoId: string, jobId: string, config: StartProcessConfig)
    requires forall req :: fetch(req).Responded? && !IsOk(fetch(req).response)
    ensures UploadVideo(fetch, file).result == Failure(HttpError(ParseError(fetch(UploadRequest(file)).response)))
    ensures StartProcess(fetch, videoId, config).result
      == Failure(HttpError(ParseError(fetch(StartRequest(videoId, config)).response)))
    ensures GetJob(fetch, jobId).result == Failure(HttpError(ParseError(fetch(JobRequest(jobId)).response)))
    ensures GetResults(fetch, videoId).result
      == Failure(HttpError(ParseError(fetch(ResultsRequest(videoId)).response)))
    ensures DownloadOverlay(fetch, videoId).result
      == Failure(HttpError(ParseError(fetch(DownloadRequest(videoId, "overlay")).response)))
    ensures DownloadKeypoints(fetch, videoId).result
      == Failure(HttpError(ParseError(fetch(DownloadRequest(videoId, "keypoints")).response)))
  {
  }

  /** `OpenPose` for "openpose", `MediaPipe` for "mediapipe". */
  lemma ModelNameRoundTrip(m: PoseModel)
    ensures ModelOfName(ModelName(m)) == Some(m)
  {
  }

  function ResolutionOfName(name: string): Option<OutputResolution> {
    if name == "original" then Some(Original)
    else if name == "1280x720" then Some(Res1280x720)
    else None
  }

  /** What a server reads back from a start request: the model from the query, the rest from the body. */
  function ConfigOfStartRequest(req: Request): Option<StartProcessConfig> {
    if |req.query| == 1 && req.query[0].0 == "model" && ModelOfName(req.query[0].1).Some?
       && req.body.JsonText? && req.body.value.JObject?
    then
      var fields := req.body.value.fields;
      if "every_n_frames" in fields && fields["every_n_frames"].JNumber?
         && "output_resolution" in fields && fields["output_resolution"].JString?
         && ResolutionOfName(fields["output_resolution"].s).Some?
         && "save_intermediate_frames" in fields && fields["save_intermediate_frames"].JBool?
      then Some(StartProcessConfig(
        ModelOfName(req.query[0].1).value,
        fields["every_n_frames"].n,
        ResolutionOfName(fields["output_resolution"].s).value,
        fields["save_intermediate_frames"].b))
      else None
    else None
  }

  /**
   * The start request loses nothing: the configuration is recovered from it,
   * with `model` in the query string and exactly the other three keys in the body.
   */
  lemma StartRequestRoundTrip(videoId: string, config: StartProcessConfig)
    ensures ConfigOfStartRequest(StartRequest(videoId, config)) == Some(config)
    ensures StartRequest(videoId, config).body.JsonText?
    ensures StartRequest(videoId, config).body.value.JObject?
    ensures StartRequest(videoId, config).body.value.fields.Keys
      == {"every_n_frames", "output_resolution", "save_intermediate_frames"}
    ensures "model" !in StartRequest(videoId, config).body.value.fields
  {
    match config.model
    case OpenPose =>
    case MediaPipe =>
  }

  /**
   * An ok response whose body is not JSON: the overlay download still yields the
   * bytes, while the keypoints download, which decodes JSON, rejects.
   */
  lemma OverlayBypassesJson(fetch: Fetch, videoId: string)
    requires forall req :: fetch(req).Responded? && IsOk(fetch(req).response) && fetch(req).response.json.None?
    ensures DownloadOverlay(fetch, videoId).result.Success?
    ensures DownloadKeypoints(fetch, videoId).result == Failure(DecodeError)
  {
  }
}
