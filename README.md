# BetaGen client and pose-script core, in Dafny

BetaGen is a climbing-video analyser. A React front end uploads a video,
starts a pose-estimation job, shows the job's status and lets the user
browse the extracted keypoints frame by frame. A set of Python scripts
drive OpenCV and MediaPipe/OpenPose over a video, frame by frame.

This project models the decision logic of both halves.

- **Keypoint quick view** (`KeypointsViewer`, `JointOrder`):
  - the numeric-aware joint order and the sort it drives;
  - the `<w>x<h>` canvas-size parser;
  - the deduplicated, sorted joint list, built by nested loops into an insertion-ordered set;
  - the frame clamp and the joint fallback, as methods of a selection class;
  - the selected joint's trajectory;
  - the render effect, as a list of abstract draw commands.
- **API client** (`Api`):
  - the error-message policy, and how one `fetch` outcome becomes a result;
  - the endpoint of each wrapper;
  - how the start configuration is split between the query and the body;
  - the raw-bytes overlay download.
- **Forms and panels**:
  - `UploadPanel`: the configuration edits and the button guards;
  - `JobStatusPanel`: the status classification;
  - `App`: the submit state machine, a class whose methods update `loading`, `error` and `result`.
- **Pose scripts**, with the capture and the writer as classes over a list of frames (`VideoIo`):
  - `MediapipeExample`: the smoother, the landmark extraction, the visibility filters and the sample/hold/draw/write loop;
  - `MediapipeDemo`: the import-path insertion, the loop with its `max_frames` cut and its different hold rule, and the return codes;
  - `OpenposeTest`: the fps and size fallbacks, the codec fallback, and the capped loop with resizing, the jpg schedule and the preview.
- **Shared pieces**:
  - `FrameLoop`: every-N sampling, the fps fallback, and where an ESC-terminated loop stops;
  - `Text`: decimal digits, zero padding, character search;
  - `Selection`: positions satisfying a test.

Abstractions used throughout:

- JavaScript `Number()` deciding "is numeric" is modelled as "every character is an ASCII digit"; the empty string reads as 0, as in JavaScript.
- `localeCompare` is modelled as lexicographic order on characters.
- A JavaScript number is `NaN` or an exact real. Coordinates, confidences and visibilities are exact reals.
- I/O is modelled as parameters:
  - `fetch` and the mock `analyzeMock` call are functions from the request to an abstract outcome;
  - the pose detector and the pose model are functions from the frame number to a result;
  - the ESC key is a predicate on the frame number.

## Model

| member | source | states |
|---|---|---|
| JointOrder.LexCompare | frontend/src/components/KeypointsViewer.tsx:14 | the text comparison returns -1, 0 or 1 |
| JointOrder.LexAntisymmetric | frontend/src/components/KeypointsViewer.tsx:14 | swapping the two strings negates the text comparison |
| JointOrder.LexZeroIffEqual | frontend/src/components/KeypointsViewer.tsx:14 | the text comparison is 0 exactly on equal strings |
| JointOrder.LexTransitive | frontend/src/components/KeypointsViewer.tsx:14 | the text comparison is transitive |
| JointOrder.IsNumeric | frontend/src/components/KeypointsViewer.tsx:9-11 | defines when `Number()` of a name is not NaN: a string of ASCII digits (no contract; used by the comparator laws) |
| JointOrder.Compare | frontend/src/components/KeypointsViewer.tsx:8-15 | defines `numericOrStringSort`: the value difference for two numeric names, the text comparison otherwise (no contract; its laws are the Compare* lemmas below) |
| JointOrder.CompareAntisymmetric | frontend/src/components/KeypointsViewer.tsx:8-15 | swapping the two names negates `numericOrStringSort`, whatever the names |
| JointOrder.CompareReflexive | frontend/src/components/KeypointsViewer.tsx:8-15 | every name compares equal to itself |
| JointOrder.CompareTransitive | frontend/src/components/KeypointsViewer.tsx:8-15 | on names that are all numeric, or all non-numeric, the comparator is transitive |
| JointOrder.MixedNamesCycle | frontend/src/components/KeypointsViewer.tsx:8-15 | with mixed names the comparator has the cycle 9 < 10 < 1a < 9, so no sortedness is claimed there |
| JointOrder.NumericExampleValues | frontend/src/components/KeypointsViewer.tsx:9-12 | example: two numeric names compare by the difference of their values ("2" vs "10" gives -8) |
| JointOrder.Insert | frontend/src/components/KeypointsViewer.tsx:44 | inserting a name adds exactly that name to the multiset of names |
| JointOrder.SortNames | frontend/src/components/KeypointsViewer.tsx:44 | the sort is a permutation of its input |
| JointOrder.InsertOrdered | frontend/src/components/KeypointsViewer.tsx:44 | inserting into an ordered uniform list keeps it ordered |
| JointOrder.SortNamesOrdered | frontend/src/components/KeypointsViewer.tsx:44 | on all-numeric or all-non-numeric names the sorted list is in comparator order |
| JointOrder.NonNumericKeysDistinct | frontend/src/components/KeypointsViewer.tsx:14 | distinct non-numeric names never compare as equal |
| JointOrder.StrictlyOrderedUnique | frontend/src/components/KeypointsViewer.tsx:44 | two strictly ordered lists with the same names are identical |
| JointOrder.SortNumericExample | frontend/src/components/KeypointsViewer.tsx:8-15 | example: `["10","2","1"]` sorts to `["1","2","10"]` |
| KeypointsViewer.MatchResolution | frontend/src/components/KeypointsViewer.tsx:19 | defines the two digit groups of `/^(\d+)x(\d+)$/` (no contract; specified by MatchResolutionCorrect) |
| KeypointsViewer.ParseResolution | frontend/src/components/KeypointsViewer.tsx:17-27 | defines `parseResolution` (no contract; specified by the ParseResolution* lemmas) |
| KeypointsViewer.MatchResolutionCorrect | frontend/src/components/KeypointsViewer.tsx:19 | the pattern matches exactly texts `<digits>x<digits>` and yields the two numbers |
| KeypointsViewer.ParseResolutionRoundTrip | frontend/src/components/KeypointsViewer.tsx:17-27 | writing `w`x`h` under `output_resolution` and parsing it gives (w, h) back |
| KeypointsViewer.ParseResolutionDefault | frontend/src/components/KeypointsViewer.tsx:18-22 | any text that is not `<digits>x<digits>` gives 640 by 360 |
| KeypointsViewer.ParseResolutionExamples | frontend/src/components/KeypointsViewer.tsx:17-27 | examples: missing meta, a non-string value and "bogus" give 640 by 360 |
| KeypointsViewer.ResolutionText | frontend/src/components/KeypointsViewer.tsx:18 | defines the text parsed: `output_resolution` when it is a string, else "" (no contract; see ParseResolutionRoundTrip, ParseResolutionExamples) |
| KeypointsViewer.MaxFrame | frontend/src/components/KeypointsViewer.tsx:35 | 0 without frames, otherwise the last valid index |
| KeypointsViewer.FramesOf | frontend/src/components/KeypointsViewer.tsx:34 | defines `payload?.frames ?? []` (no contract; see EmptySceneIsPlaceholder, Render) |
| KeypointsViewer.ClampFrameIndex | frontend/src/components/KeypointsViewer.tsx:47-51 | the index never rises, never exceeds `maxFrame`, and is unchanged when within range |
| KeypointsViewer.ClampFrameIndexIdempotent | frontend/src/components/KeypointsViewer.tsx:47-51 | consequence of ClampFrameIndex: a second clamp changes nothing, so the effect settles |
| KeypointsViewer.ShownFrame | frontend/src/components/KeypointsViewer.tsx:88 | the frame at the index, or the first frame when the index is past the end |
| KeypointsViewer.KeypointNames | frontend/src/components/KeypointsViewer.tsx:40-41 | the names of a frame's keypoints, position by position |
| KeypointsViewer.Dedup | frontend/src/components/KeypointsViewer.tsx:38-43 | the set holds exactly the names fed to it, without repeats |
| KeypointsViewer.FlatNamesMembers | frontend/src/components/KeypointsViewer.tsx:39-43 | a name is collected iff some keypoint of some frame carries it |
| KeypointsViewer.SortNamesNoDuplicates | frontend/src/components/KeypointsViewer.tsx:44 | sorting introduces no repeats |
| KeypointsViewer.JointNamesOf | frontend/src/components/KeypointsViewer.tsx:37-45 | defines the `jointNames` memo as the sorted first occurrences (no contract; specified by JointNamesExact, JointNamesOrdered, JointNamesOrderIndependent) |
| KeypointsViewer.JointNamesExact | frontend/src/components/KeypointsViewer.tsx:37-45 | the joint list holds every keypoint name of every frame exactly once, and nothing else |
| KeypointsViewer.JointNamesOrdered | frontend/src/components/KeypointsViewer.tsx:37-45 | with uniform names the joint list is in comparator order |
| KeypointsViewer.JointNamesOrderIndependent | frontend/src/components/KeypointsViewer.tsx:37-45 | reordering the frames does not change the joint list (uniform names with distinct values) |
| KeypointsViewer.AddKeypointNames | frontend/src/components/KeypointsViewer.tsx:40-42 | the inner loop leaves the set fed with one more frame's names |
| KeypointsViewer.CollectJointNames | frontend/src/components/KeypointsViewer.tsx:37-45 | the nested loops and the sort compute the joint list |
| KeypointsViewer.FallbackJoint | frontend/src/components/KeypointsViewer.tsx:53-61 | "0" without joints, the current joint when listed, else the first joint |
| KeypointsViewer.FallbackJointIdempotent | frontend/src/components/KeypointsViewer.tsx:53-61 | consequence of FallbackJoint: a second fallback changes nothing |
| KeypointsViewer.FindIndex | frontend/src/components/KeypointsViewer.tsx:90 | the position of the first keypoint with the name, none before it |
| KeypointsViewer.FindKeypoint | frontend/src/components/KeypointsViewer.tsx:90 | `find` succeeds iff some keypoint has the name, and returns the first one |
| KeypointsViewer.Trajectory | frontend/src/components/KeypointsViewer.tsx:89-91 | no longer than the frame list, every point carries the joint's name |
| KeypointsViewer.TrajectoryFollowsJointFrames | frontend/src/components/KeypointsViewer.tsx:89-91 | one point per frame holding the joint, in frame order, the first matching keypoint of that frame |
| KeypointsViewer.TrajectoryExample | frontend/src/components/KeypointsViewer.tsx:89-91 | example: a frame lacking the joint is skipped |
| KeypointsViewer.Markers | frontend/src/components/KeypointsViewer.tsx:107-115 | the marker loop draws only markers |
| KeypointsViewer.MarkersDrawConfidentKeypoints | frontend/src/components/KeypointsViewer.tsx:107-115 | one marker per keypoint with confidence ≥ 0.2, in order; radius 6 iff it is the selected joint, else 4 |
| KeypointsViewer.LowConfidenceExample | frontend/src/components/KeypointsViewer.tsx:108-110 | example: confidence 0.19 draws nothing |
| KeypointsViewer.IsDrawn | frontend/src/components/KeypointsViewer.tsx:108-110 | defines the skip test: a keypoint is drawn unless its confidence is below 0.2 (no contract; see MarkersDrawConfidentKeypoints) |
| KeypointsViewer.MarkerFor | frontend/src/components/KeypointsViewer.tsx:111-114 | defines one marker: radius 6 and the highlight colour for the selected joint, else 4 and the plain colour (no contract; see MarkersDrawConfidentKeypoints) |
| KeypointsViewer.PathCommands | frontend/src/components/KeypointsViewer.tsx:97-103 | one path command per trajectory point |
| KeypointsViewer.PathHasNoStroke | frontend/src/components/KeypointsViewer.tsx:97-103 | the path is only `moveTo`/`lineTo` |
| KeypointsViewer.TrajectoryCommands | frontend/src/components/KeypointsViewer.tsx:93-105 | defines the stroke block: nothing below two points, else beginPath, the path, stroke (no contract; see SceneStrokesOnlyLongTrajectories) |
| KeypointsViewer.SelectedLabels | frontend/src/components/KeypointsViewer.tsx:117-128 | defines the labels: frame number and joint, plus the selected keypoint when found (no contract) |
| KeypointsViewer.Background | frontend/src/components/KeypointsViewer.tsx:74-79 | defines the canvas sizing from `parseResolution` and the background fill (no contract; see EmptySceneIsPlaceholder, SceneStrokesOnlyLongTrajectories) |
| KeypointsViewer.FrameCommands | frontend/src/components/KeypointsViewer.tsx:107-128 | defines what is drawn over the shown frame: markers, then frame and joint labels, then the selected keypoint's label (no contract; see SceneStrokesOnlyLongTrajectories, Render) |
| KeypointsViewer.Scene | frontend/src/components/KeypointsViewer.tsx:63-129 | defines everything one run of the render effect draws (no contract; specified by EmptySceneIsPlaceholder, SceneStrokesOnlyLongTrajectories, and met by Render) |
| KeypointsViewer.DrawTrajectory | frontend/src/components/KeypointsViewer.tsx:93-105 | the `forEach` loop issues the trajectory's commands |
| KeypointsViewer.DrawMarkers | frontend/src/components/KeypointsViewer.tsx:107-115 | the `for` loop issues the markers of the shown frame |
| KeypointsViewer.Render | frontend/src/components/KeypointsViewer.tsx:63-129 | the render effect issues the scene: nothing without a canvas, else size, background, and the rest |
| KeypointsViewer.EmptySceneIsPlaceholder | frontend/src/components/KeypointsViewer.tsx:81-86 | with no payload or no frames only the size, the background and "No keypoints loaded" are drawn |
| KeypointsViewer.SceneStrokesOnlyLongTrajectories | frontend/src/components/KeypointsViewer.tsx:93 | the path is stroked iff at least two frames hold the joint |
| KeypointsViewer.ViewerSelection.constructor | frontend/src/components/KeypointsViewer.tsx:31-32 | frame 0 and joint "0" initially |
| KeypointsViewer.ViewerSelection.MoveSlider | frontend/src/components/KeypointsViewer.tsx:144 | the slider sets the frame index |
| KeypointsViewer.ViewerSelection.PickJoint | frontend/src/components/KeypointsViewer.tsx:155 | the select sets the joint |
| KeypointsViewer.ViewerSelection.ClampFrame | frontend/src/components/KeypointsViewer.tsx:47-51 | the clamp effect applied to the state |
| KeypointsViewer.ViewerSelection.FallBackJoint | frontend/src/components/KeypointsViewer.tsx:53-61 | the fallback effect applied to the state |
| Api.IsOk | frontend/src/lib/api.ts:25 | defines `response.ok` as a status in 200..299 (no contract) |
| Api.StatusLine | frontend/src/lib/api.ts:20 | defines the fallback message (no contract; specified by StatusLineRecoversStatus) |
| Api.Detail | frontend/src/lib/api.ts:13-16 | defines the string `detail` of a decodable object body (no contract) |
| Api.ParseError | frontend/src/lib/api.ts:11-21 | the body's string `detail`, otherwise "`status` `statusText`" |
| Api.StatusLineRecoversStatus | frontend/src/lib/api.ts:20 | the fallback message starts with the status code, then a space, then the status text |
| Api.Send | frontend/src/lib/api.ts:23-29 | exactly one fetch; network failure rejects; non-ok rejects with `parseError`'s message; ok yields the JSON or a decode error |
| Api.UploadRequest | frontend/src/lib/api.ts:31-37 | defines the upload request: POST to videos/upload with the file as form part (no contract; see WrappersHitTheirEndpoints) |
| Api.StartRequest | frontend/src/lib/api.ts:40-55 | defines the start request (no contract; specified by StartRequestRoundTrip) |
| Api.JobRequest | frontend/src/lib/api.ts:58 | defines the job request (no contract; see WrappersHitTheirEndpoints) |
| Api.ResultsRequest | frontend/src/lib/api.ts:62 | defines the results request (no contract; see WrappersHitTheirEndpoints) |
| Api.DownloadRequest | frontend/src/lib/api.ts:66 | defines a download request with its `type` query (no contract; see WrappersHitTheirEndpoints) |
| Api.RouteOf | frontend/src/lib/api.ts:31-75 | reads the operation back from a request's method, path and query (no contract; the reference for WrappersHitTheirEndpoints) |
| Api.UploadVideo | frontend/src/lib/api.ts:31-38 | defines `uploadVideo` as `request` on the upload request (no contract; see WrappersHitTheirEndpoints, NonOkAlwaysRejects) |
| Api.StartProcess | frontend/src/lib/api.ts:40-55 | defines `startProcess` (no contract; see WrappersHitTheirEndpoints, NonOkAlwaysRejects) |
| Api.GetJob | frontend/src/lib/api.ts:57-59 | defines `getJob` (no contract; see WrappersHitTheirEndpoints, NonOkAlwaysRejects) |
| Api.GetResults | frontend/src/lib/api.ts:61-63 | defines `getResults` (no contract; see WrappersHitTheirEndpoints, NonOkAlwaysRejects) |
| Api.DownloadKeypoints | frontend/src/lib/api.ts:73-75 | defines `downloadKeypoints` through the JSON `request` (no contract; see OverlayBypassesJson) |
| Api.DownloadOverlay | frontend/src/lib/api.ts:65-71 | one fetch; the same error path; the raw bytes on success, never decoded |
| Api.WrappersHitTheirEndpoints | frontend/src/lib/api.ts:31-75 | each wrapper sends exactly one request, to its own method, path and query |
| Api.NonOkAlwaysRejects | frontend/src/lib/api.ts:23-29 | against a server answering non-ok, every wrapper rejects with `parseError`'s message |
| Api.ModelNameRoundTrip | frontend/src/lib/api.ts:44 | the model's query value names the model |
| Api.StartRequestRoundTrip | frontend/src/lib/api.ts:40-55 | the configuration is recovered from the query and the body; the body has exactly the three other keys, and no `model` |
| Api.OverlayBypassesJson | frontend/src/lib/api.ts:65-75 | an ok response with an undecodable body: the overlay download succeeds, the keypoints download rejects |
| UploadPanel.NormalizeEveryN | frontend/src/components/UploadPanel.tsx:68-70 | always ≥ 1; a value ≥ 1 passes through; NaN, 0 and anything below 1 become 1 |
| UploadPanel.NormalizeEveryNIdempotent | frontend/src/components/UploadPanel.tsx:69 | consequence of NormalizeEveryN: normalising a normalised value changes nothing |
| UploadPanel.ApplyEdit | frontend/src/components/UploadPanel.tsx:54 | each edit replaces its one field and copies the other three |
| UploadPanel.ApplyEdits | frontend/src/components/UploadPanel.tsx:54-97 | defines a sequence of `onConfigChange` calls, applied in order (no contract; see EditsKeepEveryNValid, EditsOfDistinctFieldsCommute, LaterEditWins) |
| UploadPanel.EditsKeepEveryNValid | frontend/src/components/UploadPanel.tsx:54-97 | no sequence of edits brings `every_n_frames` below 1 |
| UploadPanel.EditsOfDistinctFieldsCommute | frontend/src/components/UploadPanel.tsx:54-97 | edits of different fields commute |
| UploadPanel.LaterEditWins | frontend/src/components/UploadPanel.tsx:54-97 | of two edits of one field the later wins |
| UploadPanel.SelectedFile | frontend/src/components/UploadPanel.tsx:27-29 | the first file, or none for a missing or empty list |
| UploadPanel.NoVideoId | frontend/src/components/UploadPanel.tsx:108 | defines `!videoId`: null or empty (no contract; used in View's contract) |
| UploadPanel.View | frontend/src/components/UploadPanel.tsx:40-110 | Upload disabled iff no file or uploading; Process disabled iff no (or empty) id or starting; labels, hint and "-" for a null id |
| UploadPanel.UploadFollowsFileInput | frontend/src/components/UploadPanel.tsx:27-40 | when idle, Upload is enabled iff a file was chosen |
| UploadPanel.EmptyVideoIdShownButDisabled | frontend/src/components/UploadPanel.tsx:46 | an empty id is shown as "" yet disables Process |
| JobStatusPanel.IsRunning | frontend/src/components/JobStatusPanel.tsx:15 | defines `running` (no contract; specified by RunningIffNotTerminal) |
| JobStatusPanel.RunningIffNotTerminal | frontend/src/components/JobStatusPanel.tsx:15 | a known status runs iff it is not completed, done or failed; a null one does not run |
| JobStatusPanel.PillLabel | frontend/src/components/JobStatusPanel.tsx:22 | the status name, or "unknown" |
| JobStatusPanel.PillLabelRoundTrip | frontend/src/components/JobStatusPanel.tsx:22 | the pill is read back to the status |
| JobStatusPanel.PillLabelIdentifiesStatus | frontend/src/components/JobStatusPanel.tsx:22 | different statuses get different pills |
| JobStatusPanel.Render | frontend/src/components/JobStatusPanel.tsx:10-27 | nothing iff the job id is null or empty; otherwise the `StatusView` record of the section: the id, the pill, a spinner iff running, the elapsed time, and the error only when non-empty |
| JobStatusPanel.SpinnerOnlyWhileRunning | frontend/src/components/JobStatusPanel.tsx:15-23 | a terminal status shows no spinner, a pending or running one does |
| App.ErrorMessage | frontend/src/App.tsx:27 | the Error's message, or "Unknown error" |
| App.AppState.constructor | frontend/src/App.tsx:7-12 | "Blue Arete", 35, 4, no result, not loading, no error |
| App.AppState.SubmitDisabled | frontend/src/App.tsx:68 | defines the disabled state of the submit button as `loading` (no contract) |
| App.AppState.ErrorShown | frontend/src/App.tsx:73 | defines when the error paragraph renders: a non-empty message (no contract) |
| App.AppState.CurrentRequest | frontend/src/App.tsx:20-24 | the request carries the current field values |
| App.AppState.SetClimbName | frontend/src/App.tsx:41 | sets the name only |
| App.AppState.SetWallAngle | frontend/src/App.tsx:51 | sets the angle only |
| App.AppState.SetAttempts | frontend/src/App.tsx:63 | sets the attempts only |
| App.AppState.BeginSubmit | frontend/src/App.tsx:16-17 | loading on and error cleared before the call; result kept |
| App.AppState.FinishSubmit | frontend/src/App.tsx:25-30 | success replaces the result; failure keeps it and sets the message; loading off either way |
| App.AppState.Submit | frontend/src/App.tsx:14-31 | one call with the current fields; afterwards loading is off, and result or error is set as the outcome says |
| FrameLoop.ShouldInfer | backend/scripts/test_mediapipe_example.py:120 | defines `do_infer` (no contract; specified by FirstInference and InferCountIsQuotient) |
| FrameLoop.InferCount | backend/scripts/test_mediapipe_example.py:117-120 | counts the inferring frames among 1..n (no contract; specified by InferCountIsQuotient) |
| FrameLoop.FpsOrDefault | backend/scripts/test_mediapipe_example.py:81-83 | a positive rate is kept; missing, zero or negative becomes 30; the result is positive |
| FrameLoop.InferCountIsQuotient | backend/scripts/test_mediapipe_example.py:117-120 | with the counter starting at 1, floor(n / every_n) of the first n frames infer (all when every_n ≤ 1) |
| FrameLoop.FirstInference | backend/scripts/test_mediapipe_example.py:120 | frame 1 infers iff every_n ≤ 1; otherwise the first is frame every_n |
| FrameLoop.ProcessedFrom | backend/scripts/test_mediapipe_example.py:113-139 | the number of frames an ESC-terminated loop processes never passes the limit, and is at least the frames already passed |
| FrameLoop.ProcessedAtExit | backend/scripts/test_mediapipe_example.py:113-139 | a loop that stopped after frame n, by ESC or by running out, processed n frames |
| FrameLoop.ProcessedFromMeaning | backend/scripts/test_mediapipe_example.py:136-139 | the loop processes a prefix ending at the first ESC, or all frames; the first frame always; without a window, all frames |
| VideoIo.Capture.Read | backend/scripts/test_mediapipe_example.py:114-116 | the next frame while open and frames remain; otherwise fails without moving |
| VideoIo.Capture.Rewind | backend/scripts/openpose_test.py:49 | back to the first frame |
| VideoIo.Capture.Release | backend/scripts/openpose_test.py:111 | the capture is released |
| VideoIo.Writer.Write | backend/scripts/test_mediapipe_example.py:134 | appends the frame when open and not released |
| VideoIo.Writer.Release | backend/scripts/openpose_test.py:113 | the writer is released |
| MediapipeExample.Clip | backend/scripts/test_mediapipe_example.py:39 | `np.clip` into [0, 1] |
| MediapipeExample.ToPixels | backend/scripts/test_mediapipe_example.py:37-39 | defines one converted row: `x*w`, `y*h`, clipped visibility (no contract; see LandmarksPx, ExtractLandmarksPx) |
| MediapipeExample.LandmarksPx | backend/scripts/test_mediapipe_example.py:35-39 | 33 rows, every visibility in [0, 1]; rows past the reported landmarks stay the zero row `Unset` of `np.zeros` |
| MediapipeExample.ExtractLandmarksPx | backend/scripts/test_mediapipe_example.py:27-40 | none iff nothing was detected; otherwise the filled array |
| MediapipeExample.Blend | backend/scripts/test_mediapipe_example.py:23 | defines `alpha*state + (1-alpha)*pts` on one row (no contract; see BlendKeepsVisibility, SmoothStepFixedPoint) |
| MediapipeExample.BlendPose | backend/scripts/test_mediapipe_example.py:23 | blends the pose row by row; keeps the length |
| MediapipeExample.SmoothStep | backend/scripts/test_mediapipe_example.py:16-24 | the smoothed pose has the input's length |
| MediapipeExample.BlendKeepsVisibility | backend/scripts/test_mediapipe_example.py:23 | with alpha in [0, 1] a blended visibility stays in [0, 1] |
| MediapipeExample.SmoothStepKeepsVisibility | backend/scripts/test_mediapipe_example.py:16-24 | an update keeps every visibility in [0, 1] |
| MediapipeExample.SmoothStepFixedPoint | backend/scripts/test_mediapipe_example.py:23 | an update whose input equals the smoother's current state returns that state |
| MediapipeExample.EMASmoother.constructor | backend/scripts/test_mediapipe_example.py:13-14 | the given alpha and no state |
| MediapipeExample.EMASmoother.Update | backend/scripts/test_mediapipe_example.py:16-24 | first call stores and returns the input, later calls the blend; the state is what was returned |
| MediapipeExample.Trunc | backend/scripts/test_mediapipe_example.py:54 | `int()` truncates toward zero |
| MediapipeExample.Visible | backend/scripts/test_mediapipe_example.py:53 | defines `vis >= min_vis` (no contract; see PointOpsFollowVisible) |
| MediapipeExample.CircleAt | backend/scripts/test_mediapipe_example.py:54 | defines the circle at the truncated coordinates with radius 3 (no contract; see PointOpsFollowVisible) |
| MediapipeExample.EdgeDrawn | backend/scripts/test_mediapipe_example.py:57-61 | defines when an edge is drawn: both ends in range and `min(sv, ev)` not below min_vis (no contract; see EdgeOpsFollowDrawnEdges, DrawnEdgeEndsAreDrawn) |
| MediapipeExample.LineFor | backend/scripts/test_mediapipe_example.py:62 | defines the line between the truncated ends (no contract; see EdgeOpsFollowDrawnEdges) |
| MediapipeExample.PointOps | backend/scripts/test_mediapipe_example.py:51-54 | defines the circles of the first loop (no contract; specified by PointOpsFollowVisible) |
| MediapipeExample.EdgeOps | backend/scripts/test_mediapipe_example.py:57-62 | defines the lines of the second loop (no contract; specified by EdgeOpsFollowDrawnEdges) |
| MediapipeExample.PointOpsFollowVisible | backend/scripts/test_mediapipe_example.py:51-54 | one circle per landmark with visibility ≥ min_vis, in order |
| MediapipeExample.EdgeOpsFollowDrawnEdges | backend/scripts/test_mediapipe_example.py:57-62 | one line per edge whose two ends are visible enough, in order |
| MediapipeExample.DrawnEdgeEndsAreDrawn | backend/scripts/test_mediapipe_example.py:51-62 | both ends of a drawn edge get a circle |
| MediapipeExample.DrawOps | backend/scripts/test_mediapipe_example.py:43-62 | defines the drawing: the circles of the first loop, then the lines of the second (no contract; DrawLandmarks is stated in terms of it) |
| MediapipeExample.DrawLandmarks | backend/scripts/test_mediapipe_example.py:43-62 | the two loops issue the filtered circles, then the filtered lines |
| MediapipeExample.Held | backend/scripts/test_mediapipe_example.py:122-128 | the held pose has 33 rows with visibilities in [0, 1] |
| MediapipeExample.Smoothed | backend/scripts/test_mediapipe_example.py:130-131 | the smoother holds a state iff a pose is held |
| MediapipeExample.HeldIsLatestDetection | backend/scripts/test_mediapipe_example.py:126-128 | the held pose is the latest non-None detection |
| MediapipeExample.OverlayIffEarlierDetection | backend/scripts/test_mediapipe_example.py:130-132 | no overlay before the first detection, one on every frame after |
| MediapipeExample.SmoothedVisibilityInRange | backend/scripts/test_mediapipe_example.py:130-131 | smoothed visibilities stay in [0, 1] |
| MediapipeExample.Overlay | backend/scripts/test_mediapipe_example.py:130-132 | defines the overlay of frame k: the drawing of the smoothed pose when one is held (no contract; specified by OverlayIffEarlierDetection) |
| MediapipeExample.ExampleOutputs | backend/scripts/test_mediapipe_example.py:134 | one written frame per processed frame |
| MediapipeExample.ExampleOutputsWriteEachFrame | backend/scripts/test_mediapipe_example.py:113-134 | frame k written is frame k read |
| MediapipeExample.ExampleProcessed | backend/scripts/test_mediapipe_example.py:113-139 | defines the number of frames `main` processes: the ESC-terminated count over the capture (no contract; see FrameLoop.ProcessedFromMeaning, ExampleLoop, RunExample) |
| MediapipeExample.InferStep | backend/scripts/test_mediapipe_example.py:120-128 | `last_pts` after frame k |
| MediapipeExample.OverlayStep | backend/scripts/test_mediapipe_example.py:130-132 | the overlay of frame k and the smoother's new state |
| MediapipeExample.ProcessFrame | backend/scripts/test_mediapipe_example.py:117-132 | the work on one frame keeps the held pose and the smoother in step with their specifications |
| MediapipeExample.ReadAndWrite | backend/scripts/test_mediapipe_example.py:114-134 | a failed read changes nothing; otherwise one more frame is written |
| MediapipeExample.ExampleLoop | backend/scripts/test_mediapipe_example.py:105-139 | the writer receives the processed frames with their overlays, up to the first ESC or the end |
| MediapipeExample.RunExample | backend/scripts/test_mediapipe_example.py:77-142 | input error or output error with nothing released, or the loop's frames with capture and writer released; the writer's fps and size |
| MediapipeDemo.SysPath.EnsureOnPath | backend/scripts/test_mediapipe.py:11-18 | the path becomes `WithRoot` of the old path |
| MediapipeDemo.WithRoot | backend/scripts/test_mediapipe.py:16-18 | the root is present and no entry is lost |
| MediapipeDemo.WithRootIdempotent | backend/scripts/test_mediapipe.py:16-18 | a second call changes nothing |
| MediapipeDemo.WithRootCopies | backend/scripts/test_mediapipe.py:16-18 | an absent root is inserted once at index 0; a present one is not duplicated |
| MediapipeDemo.DemoOutputs | backend/scripts/test_mediapipe.py:86 | one written frame per processed frame |
| MediapipeDemo.Rendered | backend/scripts/test_mediapipe.py:81-84 | defines the frame written: plain without a pose, drawn over with it (no contract; see DemoOutputsFrames) |
| MediapipeDemo.DemoOutputsFrames | backend/scripts/test_mediapipe.py:81-86 | frame k is written once: plain iff no pose is held, drawn over otherwise |
| MediapipeDemo.FrameLimit | backend/scripts/test_mediapipe.py:73-75 | 0 means no cap; a positive cap bounds the count; a negative one stops at once |
| MediapipeDemo.DemoProcessedBounds | backend/scripts/test_mediapipe.py:68-92 | at most `max_frames` frames written; all of them with no cap and no window |
| MediapipeDemo.LastPose | backend/scripts/test_mediapipe.py:78-79 | defines `last_pose` after frame k (no contract; specified by LastPoseIsLatestInference) |
| MediapipeDemo.DemoProcessed | backend/scripts/test_mediapipe.py:68-92 | defines the number of frames written (no contract; specified by DemoProcessedBounds) |
| MediapipeDemo.LastPoseIsLatestInference | backend/scripts/test_mediapipe.py:78-79 | the pose is the latest inference result, None included |
| MediapipeDemo.HoldRulesDiffer | backend/scripts/test_mediapipe.py:78-79 | after a detection then a miss, this script draws nothing where the example script still draws |
| MediapipeDemo.DemoLoop | backend/scripts/test_mediapipe.py:65-92 | the writer receives the rendered frames up to the cap, the first ESC or the end |
| MediapipeDemo.RunDemo | backend/scripts/test_mediapipe.py:22-100 | 2 when the capture fails, 3 when the writer fails, else 0 with the loop's frames written and both released |
| OpenposeTest.SafeFps | backend/scripts/openpose_test.py:15-19 | the fallback for a missing or ≤ 1e-6 rate, else the rate |
| OpenposeTest.JpgName | backend/scripts/openpose_test.py:98 | defines `frame_{i:06d}.jpg` (no contract; specified by JpgNameRoundTrip, JpgNameLength) |
| OpenposeTest.ShouldSave | backend/scripts/openpose_test.py:97 | defines the save test (no contract; see SavedFramesFollowSchedule) |
| OpenposeTest.JpgNameRoundTrip | backend/scripts/openpose_test.py:98 | the frame number is read back from the name, so names are distinct |
| OpenposeTest.FramedDigitsReadBack | backend/scripts/openpose_test.py:98 | any name `frame_<digits>.jpg` reads back to the value of its digits |
| OpenposeTest.JpgNameLength | backend/scripts/openpose_test.py:98 | below a million every name has 16 characters (six digits) |
| OpenposeTest.Fit | backend/scripts/openpose_test.py:91-94 | the written frame has the output size and is unchanged when it already had it |
| OpenposeTest.ChooseCodec | backend/scripts/openpose_test.py:54-67 | mp4v when it opens, avc1 otherwise, none when neither does |
| OpenposeTest.Processed | backend/scripts/openpose_test.py:81-85 | at most `MAX_FRAMES` frames, fewer when the video is shorter |
| OpenposeTest.FrameOut | backend/scripts/openpose_test.py:91-94 | defines frame k as the loop leaves it: resized when a writer exists (no contract) |
| OpenposeTest.SavedFrames | backend/scripts/openpose_test.py:97-98 | defines the saved files (no contract; specified by SavedFramesFollowSchedule, DefaultsSaveNothing) |
| OpenposeTest.PreviewEvents | backend/scripts/openpose_test.py:101-107 | defines the preview calls (no contract; specified by PreviewShowsOnceThenUpdates) |
| OpenposeTest.WrittenFrames | backend/scripts/openpose_test.py:91-94 | one frame per processed frame when writing, none otherwise |
| OpenposeTest.WrittenFramesFit | backend/scripts/openpose_test.py:91-94 | written frame k is input frame k at the output size |
| OpenposeTest.SavedFramesFollowSchedule | backend/scripts/openpose_test.py:97-98 | frame i is saved, under its own name, iff the schedule selects it |
| OpenposeTest.DefaultsSaveNothing | backend/scripts/openpose_test.py:12 | `SAVE_JPG_EVERY = 0` saves nothing |
| OpenposeTest.PreviewShowsOnceThenUpdates | backend/scripts/openpose_test.py:101-107 | one image created on the first frame, then one update per frame |
| OpenposeTest.DefaultsProcessAtMost200 | backend/scripts/openpose_test.py:9 | the shipped settings process min(200, frame count) frames |
| OpenposeTest.FrameLoop | backend/scripts/openpose_test.py:81-109 | the loop writes, saves and previews exactly the specified frames |
| OpenposeTest.OpenWriter | backend/scripts/openpose_test.py:51-62 | no writer without `WRITE_VIDEO`; else opened with the chosen codec |
| OpenposeTest.OutputSize | backend/scripts/openpose_test.py:40-49 | the reported size, or the first frame's with the position reset, or none when no frame can be read |
| OpenposeTest.RunOpenposeTest | backend/scripts/openpose_test.py:30-113 | each of the four errors exactly on its path (the writer failure releasing the capture), the size, codec and fps fallbacks, and the loop's output with the capture released |
| Text.ToDecimal | frontend/src/lib/api.ts:20 | the decimal spelling has digits only and no leading zero |
| Text.ValueOfToDecimal | frontend/src/lib/api.ts:20 | reading the spelling back gives the number |
| Text.ValueOf | frontend/src/components/KeypointsViewer.tsx:24-25 | defines `Number()` of a digit run, "" being 0 (no contract; see ValueOfToDecimal, ZeroPadDigits) |
| Text.ZeroPad | backend/scripts/openpose_test.py:98 | the text preceded by zeros: at least the width long, ending in the text, zeros before it |
| Text.ZeroPadDigits | backend/scripts/openpose_test.py:98 | padding keeps the value and gives at least the width |
| Text.IndexOf | frontend/src/components/KeypointsViewer.tsx:19 | the first position of the character, none before it |
| Types.ModelName | frontend/src/lib/types.ts:1 | defines the wire names of the models (no contract; see Api.ModelNameRoundTrip) |
| Types.StatusName | frontend/src/lib/types.ts:3 | defines the wire names of the job statuses (no contract; see JobStatusPanel.PillLabelRoundTrip) |
| Types.ResolutionName | frontend/src/lib/types.ts:13 | defines the wire names of the output resolutions (no contract; see Api.StartRequestRoundTrip) |
| Selection.IndicesWhere | frontend/src/components/KeypointsViewer.tsx:89-91 | exactly the positions passing the test, increasing |

## Left out

- `Number()` and `localeCompare` are abstracted as described above. Signs, decimal points, exponents and whitespace in names are not modelled, and neither are locale collation rules.
- Floating point: coordinates, visibilities, alpha and fps are exact reals. float32 rounding in the landmark array is not modelled.
- `toFixed` text, colours, fonts and line widths are not modelled. The label draw commands carry the values, not their formatting.
- cv2, mediapipe and matplotlib are not modelled. A capture is a fixed list of frames with the properties it reports, and a writer is the list it received. `int()` of the reported width and height is taken as given.
- The mediapipe detector, `pose.process` and the pose model's `infer` and `visualize` are functions of the frame number, supplied as parameters.
- ESC and `waitKey` are a predicate on the frame number. Window creation, `imshow` and the colour conversion before the preview are not modelled.
- Nothing is printed in the model, and argument parsing is not modelled (the arguments are parameters).
- A NaN fps is not modelled: fps is a real or missing.
- Api.WrappersHitTheirEndpoints: paths are lists of segments, so ids are taken to be free of '/', '?' and '#'. The source interpolates ids into the URL unescaped, so such an id would reach a different path or query there.
- The network is not modelled. `fetch`, `FormData`, `Blob` and JSON decoding are an abstract outcome. The file contents are opaque bytes, and `API_BASE_URL` is left out of the paths.
- The job-polling orchestrator and the elapsed-time timer are not part of the shown sources.
- `ResultsPanel.tsx`, `frontend/src/api/client.ts`, `frontend/src/api/types.ts` and the backend wiring (`main.py`, `config.py`, `router.py`) are not part of this model. `analyzeMock` is an abstract outcome.
- React scheduling is not modelled: each effect is a method applied once to the state.
- MediapipeExample.PoseLandmarks: the detector reports at most 33 landmarks; Python would raise on a 34th, which is not modelled.
- MediapipeExample.DrawLandmarks: requires skeleton edges to index within the 33 landmarks. The source takes them from MediaPipe's fixed connection list.
- JointOrder.SortNames: an insertion sort stands for the engine's `Array.prototype.sort`. Both are stable, so for a consistent comparator they give the same order; with mixed names the engine's result is not specified.
- JointOrder.SortNamesOrdered: sortedness is claimed only for all-numeric or all-non-numeric names, because the comparator has a cycle otherwise (JointOrder.MixedNamesCycle).
- KeypointsViewer.JointNamesOrderIndependent: holds only when no two distinct numeric names have the same value ("1" and "01" tie, and the stable sort then keeps the insertion order).
- FrameLoop.InferCountIsQuotient: an every_n of 0 or below infers on every frame, as every_n = 1 does.
