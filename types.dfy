/**
 * The value types the front end exchanges with the service
 * (frontend/src/lib/types.ts), and the JavaScript number they carry.
 */
module Types {
  import opened Wrappers

  /** A JavaScript number: a finite value, taken as an exact real, or NaN. */
  datatype JsNumber = NaN | Num(value: real)

  datatype PoseModel = OpenPose | MediaPipe

  datatype JobStatus = Pending | Running | Completed | Done | Failed

  datatype OutputResolution = Original | Res1280x720

  datatype StartProcessConfig = StartProcessConfig(
    model: PoseModel,
    everyNFrames: real,
    outputResolution: OutputResolution,
    saveIntermediateFrames: bool)

  datatype PoseKeypoint = PoseKeypoint(name: string, x: real, y: real, confidence: real)

  datatype FramePoseRecord = FramePoseRecord(
    frameIndex: int,
    keypoints: seq<PoseKeypoint>,
    confidence: real,
    bbox: Option<seq<real>>)

  /** A value of the payload's free-form `meta` record: only strings are told apart. */
  datatype MetaValue = MetaString(text: string) | MetaOther

  datatype KeypointsPayload = KeypointsPayload(
    videoId: string,
    model: string,
    frames: seq<FramePoseRecord>,
    meta: Option<map<string, MetaValue>>)

  /** The wire spelling of each enumeration. */
  function ModelName(m: PoseModel): string {
    match m
    case OpenPose => "openpose"
    case MediaPipe => "mediapipe"
  }

  function StatusName(s: JobStatus): string {
    match s
    case Pending => "pending"
    case Running => "running"
    case Completed => "completed"
    case Done => "done"
    case Failed => "failed"
  }

  function ResolutionName(r: OutputResolution): string {
    match r
    case Original => "original"
    case Res1280x720 => "1280x720"
  }

  /** A status after which the job changes no more. */
  predicate IsTerminal(s: JobStatus) {
    s == Completed || s == Done || s == Failed
  }
}
