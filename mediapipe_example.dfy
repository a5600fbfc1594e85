/**
 * The smoothed MediaPipe overlay script (backend/scripts/test_mediapipe_example.py):
 * landmarks are converted to pixels with their visibility clipped, smoothed by
 * an exponential moving average, drawn when visible enough, and the main loop
 * infers on every `every_n`-th frame while holding the last detection between
 * inferences. The pose detector is a parameter that maps a frame number to the
 * landmarks it reports, or to none.
 */
module MediapipeExample {
  import opened Wrappers
  import opened Selection
  import opened VideoIo
  import opened FrameLoop

  /** Number of MediaPipe pose landmarks (the rows of the `(33, 3)` array). */
  const PoseSize: nat := 33
  /** The dataclass default of `alpha` (and of the `--alpha` option). */
  const DefaultAlpha: real := 0.7
  const MinVis: real := 0.2
  const CircleRadius: nat := 3

  /** A landmark as MediaPipe reports it: normalised coordinates and a visibility score. */
  datatype RawLandmark = RawLandmark(x: real, y: real, visibility: real)

  /** What the detector reports for one frame: at most one row per pose landmark. */
  type PoseLandmarks = s: seq<RawLandmark> | |s| <= PoseSize

  /** One row of the `(33, 3)` array: pixel coordinates and visibility. */
  datatype Landmark = Landmark(x: real, y: real, vis: real)

  const Unset: Landmark := Landmark(0.0, 0.0, 0.0)

  /** `np.clip(v, 0.0, 1.0)`. */
  function Clip(v: real): (r: real)
    ensures 0.0 <= r <= 1.0
    ensures 0.0 <= v <= 1.0 ==> r == v
    ensures v < 0.0 ==> r == 0.0
    ensures v > 1.0 ==> r == 1.0
  {
    if v < 0.0 then 0.0 else if v > 1.0 then 1.0 else v
  }

  function ToPixels(lm: RawLandmark, w: int, h: int): Landmark {
    Landmark(lm.x * w as real, lm.y * h as real, Clip(lm.visibility))
  }

  /** The array `extract_landmarks_px` fills: one converted row per reported landmark, zeros after. */
  function LandmarksPx(lms: PoseLandmarks, w: int, h: int): (pts: seq<Landmark>)
    ensures |pts| == PoseSize
    ensures forall i :: 0 <= i < |pts| ==> 0.0 <= pts[i].vis <= 1.0
    ensures forall i :: |lms| <= i < |pts| ==> pts[i] == Unset
  {
    seq(PoseSize, i requires 0 <= i < PoseSize => if i < |lms| then ToPixels(lms[i], w, h) else Unset)
  }

  /** `extract_landmarks_px`: `None` exactly when nothing was detected. */
  method ExtractLandmarksPx(detected: Option<PoseLandmarks>, w: int, h: int) returns (pts: Option<seq<Landmark>>)
    ensures pts.None? <==> detected.None?
    ensures pts.Some? ==> pts.value == LandmarksPx(detected.value, w, h)
  {
    if detected.None? {
      return None;
    }
    var lms := detected.value;
    var a := new Landmark[PoseSize](_ => Unset);
    for i := 0 to |lms|
      invariant forall k :: 0 <= k < i ==> a[k] == ToPixels(lms[k], w, h)
      invariant forall k :: i <= k < PoseSize ==> a[k] == Unset
    {
      a[i] := ToPixels(lms[i], w, h);
    }
    return Some(a[..]);
  }

  /** `alpha * state + (1 - alpha) * pts` on one row. */
  function Blend(alpha: real, s: Landmark, p: Landmark): Landmark {
    Landmark(alpha * s.x + (1.0 - alpha) * p.x, alpha * s.y + (1.0 - alpha) * p.y, alpha * s.vis + (1.0 - alpha) * p.vis)
  }

  function BlendPose(alpha: real, s: seq<Landmark>, p: seq<Landmark>): (r: seq<Landmark>)
    requires |s| == |p|
    ensures |r| == |p|
  {
    seq(|p|, i requires 0 <= i < |p| => Blend(alpha, s[i], p[i]))
  }

  /** What `update` stores and returns: the input itself the first time, the blend afterwards. */
  function SmoothStep(alpha: real, state: Option<seq<Landmark>>, pts: seq<Landmark>): (r: seq<Landmark>)
    requires state.Some? ==> |state.value| == |pts|
    ensures |r| == |pts|
  {
    if state.None? then pts else BlendPose(alpha, state.value, pts)
  }

  /** With `alpha` in [0, 1], blending two visibilities in [0, 1] stays in [0, 1]. */
  lemma BlendKeepsVisibility(alpha: real, s: Landmark, p: Landmark)
    requires 0.0 <= alpha <= 1.0
    requires 0.0 <= s.vis <= 1.0 && 0.0 <= p.vis <= 1.0
    ensures 0.0 <= Blend(alpha, s, p).vis <= 1.0
  {
    var a := alpha * s.vis;
    var b := (1.0 - alpha) * p.vis;
    ScaleUnit(alpha, s.vis);
    ScaleUnit(1.0 - alpha, p.vis);
    assert 0.0 <= a;
    assert a <= alpha;
    assert 0.0 <= b;
    assert b <= 1.0 - alpha;
    assert Blend(alpha, s, p).vis == a + b;
  }

  /** Scaling a value in [0, 1] by a non-negative factor stays between 0 and the factor. */
  lemma ScaleUnit(a: real, v: real)
    requires a >= 0.0 && 0.0 <= v <= 1.0
    ensures 0.0 <= a * v <= a
  {
    assert a - a * v == a * (1.0 - v);
  }

  /** A smoothing step keeps the visibilities in [0, 1]. */
  lemma SmoothStepKeepsVisibility(alpha: real, state: Option<seq<Landmark>>, pts: seq<Landmark>)
    requires 0.0 <= alpha <= 1.0
    requires state.Some? ==> |state.value| == |pts|
    requires state.Some? ==> forall i :: 0 <= i < |pts| ==> 0.0 <= state.value[i].vis <= 1.0
    requires forall i :: 0 <= i < |pts| ==> 0.0 <= pts[i].vis <= 1.0
    ensures forall i :: 0 <= i < |pts| ==> 0.0 <= SmoothStep(alpha, state, pts)[i].vis <= 1.0
  {
    if state.Some? {
      forall i | 0 <= i < |pts| ensures 0.0 <= SmoothStep(alpha, state, pts)[i].vis <= 1.0 {
        BlendKeepsVisibility(alpha, state.value[i], pts[i]);
      }
    }
  }

  /** Feeding the smoother the pose it already holds leaves it where it is. */
  lemma SmoothStepFixedPoint(alpha: real, pts: seq<Landmark>)
    ensures SmoothStep(alpha, Some(pts), pts) == pts
  {
    forall i | 0 <= i < |pts| ensures SmoothStep(alpha, Some(pts), pts)[i] == pts[i] {
      var p := pts[i];
      assert alpha * p.x + (1.0 - alpha) * p.x == p.x;
      assert alpha * p.y + (1.0 - alpha) * p.y == p.y;
      assert alpha * p.vis + (1.0 - alpha) * p.vis == p.vis;
    }
  }

  /** `EMASmoother`: the smoothing factor and the last smoothed pose, if any. */
  class EMASmoother {
    const alpha: real
    var state: Option<seq<Landmark>>

    constructor (alpha: real := DefaultAlpha)
      ensures this.alpha == alpha && state == None
    {
      this.alpha := alpha;
      state := None;
    }

    /** `update`: stores a copy the first time, the blend afterwards, and returns what it stored. */
    method Update(pts: seq<Landmark>) returns (out: seq<Landmark>)
      requires state.Some? ==> |state.value| == |pts|
      modifies this`state
      ensures out == SmoothStep(alpha, old(state), pts)
      ensures state == Some(out)
    {
      out := SmoothStep(alpha, state, pts);
      state := Some(out);
    }
  }

  /** A drawing call: a filled circle of radius 3, or a skeleton line. */
  datatype DrawOp = Circle(cx: int, cy: int, radius: nat) | Line(x1: int, y1: int, x2: int, y2: int)

  /** Python's `int()` on a float: truncation toward zero. */
  function Trunc(r: real): (n: int)
    ensures r >= 0.0 ==> n as real <= r < n as real + 1.0
    ensures r < 0.0 ==> n as real - 1.0 < r <= n as real
  {
    if r >= 0.0 then r.Floor else -((-r).Floor)
  }

  predicate Visible(p: Landmark, minVis: real) {
    p.vis >= minVis
  }

  function VisibleTest(minVis: real): Landmark -> bool {
    p => Visible(p, minVis)
  }

  function CircleAt(p: Landmark): DrawOp {
    Circle(Trunc(p.x), Trunc(p.y), CircleRadius)
  }

  /** The circles the first loop of `draw_landmarks_from_px` draws, in landmark order. */
  function PointOps(pts: seq<Landmark>, minVis: real): seq<DrawOp> {
    if pts == [] then []
    else
      var last := pts[|pts| - 1];
      PointOps(pts[..|pts| - 1], minVis) + (if Visible(last, minVis) then [CircleAt(last)] else [])
  }

  /** `min(sv, ev) < min_vis` skips the edge: it is drawn when both ends are visible enough. */
  predicate EdgeDrawn(pts: seq<Landmark>, e: (nat, nat), minVis: real) {
    e.0 < |pts| && e.1 < |pts| && !(Min(pts[e.0].vis, pts[e.1].vis) < minVis)
  }

  function Min(a: real, b: real): real {
    if a <= b then a else b
  }

  function EdgeTest(pts: seq<Landmark>, minVis: real): ((nat, nat)) -> bool {
    e => EdgeDrawn(pts, e, minVis)
  }

  function LineFor(pts: seq<Landmark>, e: (nat, nat)): DrawOp
    requires e.0 < |pts| && e.1 < |pts|
  {
    Line(Trunc(pts[e.0].x), Trunc(pts[e.0].y), Trunc(pts[e.1].x), Trunc(pts[e.1].y))
  }

  /** The lines the second loop draws, in edge order. */
  function EdgeOps(pts: seq<Landmark>, edges: seq<(nat, nat)>, minVis: real): seq<DrawOp> {
    if edges == [] then []
    else
      var e := edges[|edges| - 1];
      EdgeOps(pts, edges[..|edges| - 1], minVis) + (if EdgeDrawn(pts, e, minVis) then [LineFor(pts, e)] else [])
  }

  predicate EdgesInRange(edges: seq<(nat, nat)>) {
    forall k :: 0 <= k < |edges| ==> edges[k].0 < PoseSize && edges[k].1 < PoseSize
  }

  function DrawOps(pts: seq<Landmark>, edges: seq<(nat, nat)>, minVis: real): seq<DrawOp> {
    PointOps(pts, minVis) + EdgeOps(pts, edges, minVis)
  }

  /** The circles are exactly those of the landmarks with visibility at least `min_vis`, in order. */
  lemma {:induction false} PointOpsFollowVisible(pts: seq<Landmark>, minVis: real)
    ensures var idx := IndicesWhere(pts, VisibleTest(minVis));
      |PointOps(pts, minVis)| == |idx|
      && forall i :: 0 <= i < |idx| ==> PointOps(pts, minVis)[i] == CircleAt(pts[idx[i]])
  {
    if pts != [] {
      var prefix := pts[..|pts| - 1];
      var last := pts[|pts| - 1];
      assert pts == prefix + [last];
      PointOpsFollowVisible(prefix, minVis);
      IndicesWhereSnoc(prefix, last, VisibleTest(minVis));
      var idx0 := IndicesWhere(prefix, VisibleTest(minVis));
      var ops0 := PointOps(prefix, minVis);
      assert VisibleTest(minVis)(last) == Visible(last, minVis);
      var idx := IndicesWhere(pts, VisibleTest(minVis));
      var ops := PointOps(pts, minVis);
      assert idx == idx0 + (if Visible(last, minVis) then [|prefix|] else []);
      assert ops == ops0 + (if Visible(last, minVis) then [CircleAt(last)] else []);
      forall i | 0 <= i < |idx| ensures ops[i] == CircleAt(pts[idx[i]]) {
        if i < |idx0| {
          assert ops[i] == ops0[i] && idx[i] == idx0[i] && pts[idx0[i]] == prefix[idx0[i]];
        }
      }
    }
  }

  /** The lines are exactly those of the edges whose two ends are visible enough, in order. */
  lemma {:induction false} EdgeOpsFollowDrawnEdges(pts: seq<Landmark>, edges: seq<(nat, nat)>, minVis: real)
    ensures var idx := IndicesWhere(edges, EdgeTest(pts, minVis));
      |EdgeOps(pts, edges, minVis)| == |idx|
      && forall i :: 0 <= i < |idx| ==> EdgeOps(pts, edges, minVis)[i] == LineFor(pts, edges[idx[i]])
  {
    if edges != [] {
      var prefix := edges[..|edges| - 1];
      var e := edges[|edges| - 1];
      assert edges == prefix + [e];
      EdgeOpsFollowDrawnEdges(pts, prefix, minVis);
      IndicesWhereSnoc(prefix, e, EdgeTest(pts, minVis));
      var idx0 := IndicesWhere(prefix, EdgeTest(pts, minVis));
      var ops0 := EdgeOps(pts, prefix, minVis);
      assert EdgeTest(pts, minVis)(e) == EdgeDrawn(pts, e, minVis);
      var idx := IndicesWhere(edges, EdgeTest(pts, minVis));
      var ops := EdgeOps(pts, edges, minVis);
      assert idx == idx0 + (if EdgeDrawn(pts, e, minVis) then [|prefix|] else []);
      assert ops == ops0 + (if EdgeDrawn(pts, e, minVis) then [LineFor(pts, e)] else []);
      forall i | 0 <= i < |idx| ensures ops[i] == LineFor(pts, edges[idx[i]]) {
        if i < |idx0| {
          assert ops[i] == ops0[i] && idx[i] == idx0[i] && edges[idx0[i]] == prefix[idx0[i]];
        }
      }
    }
  }

  /** Both ends of a drawn edge are landmarks that get a circle. */
  lemma DrawnEdgeEndsAreDrawn(pts: seq<Landmark>, e: (nat, nat), minVis: real)
    requires EdgeDrawn(pts, e, minVis)
    ensures e.0 in IndicesWhere(pts, VisibleTest(minVis))
    ensures e.1 in IndicesWhere(pts, VisibleTest(minVis))
  {
    assert VisibleTest(minVis)(pts[e.0]) && VisibleTest(minVis)(pts[e.1]);
  }

  lemma PointOpsSnoc(pts: seq<Landmark>, i: nat, minVis: real)
    requires i < |pts|
    ensures PointOps(pts[..i + 1], minVis)
      == PointOps(pts[..i], minVis) + (if Visible(pts[i], minVis) then [CircleAt(pts[i])] else [])
  {
    assert pts[..i + 1][..i] == pts[..i];
  }

  lemma EdgeOpsSnoc(pts: seq<Landmark>, edges: seq<(nat, nat)>, j: nat, minVis: real)
    requires j < |edges|
    ensures EdgeOps(pts, edges[..j + 1], minVis)
      == EdgeOps(pts, edges[..j], minVis) + (if EdgeDrawn(pts, edges[j], minVis) then [LineFor(pts, edges[j])] else [])
  {
    assert edges[..j + 1][..j] == edges[..j];
  }

  /** `draw_landmarks_from_px`: the two filtering loops, points first, then edges. */
  method DrawLandmarks(pts: seq<Landmark>, edges: seq<(nat, nat)>, minVis: real) returns (ops: seq<DrawOp>)
    requires |pts| == PoseSize && EdgesInRange(edges)
    ensures ops == DrawOps(pts, edges, minVis)
  {
    ops := [];
    for i := 0 to PoseSize
      invariant ops == PointOps(pts[..i], minVis)
    {
      PointOpsSnoc(pts, i, minVis);
      if pts[i].vis >= minVis {
        ops := ops + [CircleAt(pts[i])];
      }
    }
    assert pts[..PoseSize] == pts;
    var lines := [];
    for j := 0 to |edges|
      invariant lines == EdgeOps(pts, edges[..j], minVis)
    {
      EdgeOpsSnoc(pts, edges, j, minVis);
      var e := edges[j];
      if Min(pts[e.0].vis, pts[e.1].vis) < minVis {
        continue;
      }
      lines := lines + [LineFor(pts, e)];
    }
    assert edges[..|edges|] == edges;
    ops := ops + lines;
  }

  /** The detection the loop keeps after frame `k`: `last_pts`, replaced only by a non-empty inference. */
  function Held(detect: nat -> Option<PoseLandmarks>, everyN: int, w: int, h: int, k: nat): (r: Option<seq<Landmark>>)
    ensures r.Some? ==> |r.value| == PoseSize
    ensures r.Some? ==> forall i :: 0 <= i < |r.value| ==> 0.0 <= r.value[i].vis <= 1.0
  {
    if k == 0 then None
    else if ShouldInfer(k, everyN) && detect(k).Some? then Some(LandmarksPx(detect(k).value, w, h))
    else Held(detect, everyN, w, h, k - 1)
  }

  /** The smoother's state after frame `k`: updated with the held detection on every frame that has one. */
  function Smoothed(detect: nat -> Option<PoseLandmarks>, everyN: int, w: int, h: int, alpha: real, k: nat)
    : (r: Option<seq<Landmark>>)
    ensures r.Some? ==> |r.value| == PoseSize
    ensures r.Some? <==> Held(detect, everyN, w, h, k).Some?
  {
    if k == 0 then None
    else
      var held := Held(detect, everyN, w, h, k);
      var prev := Smoothed(detect, everyN, w, h, alpha, k - 1);
      if held.None? then prev else Some(SmoothStep(alpha, prev, held.value))
  }

  /** A written frame and the overlay drawn on it, `None` when nothing was drawn. */
  datatype ExampleFrame = ExampleFrame(image: Image, overlay: Option<seq<DrawOp>>)

  /** The parameters of one run: everything but the capture and the writer. */
  datatype ExampleArgs = ExampleArgs(
    detect: nat -> Option<PoseLandmarks>,
    everyN: int,
    alpha: real,
    edges: seq<(nat, nat)>,
    display: bool,
    escAfter: nat -> bool)

  function Overlay(args: ExampleArgs, w: int, h: int, k: nat): Option<seq<DrawOp>> {
    var s := Smoothed(args.detect, args.everyN, w, h, args.alpha, k);
    if s.Some? then Some(DrawOps(s.value, args.edges, MinVis)) else None
  }

  /** The frames the writer receives after `n` frames: each frame read, with its overlay. */
  function ExampleOutputs(frames: seq<Image>, args: ExampleArgs, w: int, h: int, n: nat): (r: seq<ExampleFrame>)
    requires n <= |frames|
    ensures |r| == n
  {
    if n == 0 then [] else ExampleOutputs(frames, args, w, h, n - 1) + [ExampleFrame(frames[n - 1], Overlay(args, w, h, n))]
  }

  /** Every frame read is written exactly once, in the order read. */
  lemma {:induction false} ExampleOutputsWriteEachFrame(frames: seq<Image>, args: ExampleArgs, w: int, h: int, n: nat)
    requires n <= |frames|
    ensures forall k :: 0 <= k < n ==> ExampleOutputs(frames, args, w, h, n)[k].image == frames[k]
  {
    if n > 0 {
      ExampleOutputsWriteEachFrame(frames, args, w, h, n - 1);
    }
  }

  /** No overlay before the first successful inference, and one on every frame after it. */
  lemma {:induction false} OverlayIffEarlierDetection(args: ExampleArgs, w: int, h: int, k: nat)
    ensures Overlay(args, w, h, k).Some?
      <==> exists j :: 1 <= j <= k && ShouldInfer(j, args.everyN) && args.detect(j).Some?
  {
    if k > 0 {
      OverlayIffEarlierDetection(args, w, h, k - 1);
      if ShouldInfer(k, args.everyN) && args.detect(k).Some? {
        assert Held(args.detect, args.everyN, w, h, k).Some?;
      }
    }
  }

  /** The held pose is the latest successful inference: later frames without one do not replace it. */
  lemma {:induction false} HeldIsLatestDetection(detect: nat -> Option<PoseLandmarks>, everyN: int, w: int, h: int, j: nat, k: nat)
    requires 1 <= j <= k
    requires ShouldInfer(j, everyN) && detect(j).Some?
    requires forall m :: j < m <= k ==> !(ShouldInfer(m, everyN) && detect(m).Some?)
    ensures Held(detect, everyN, w, h, k) == Some(LandmarksPx(detect(j).value, w, h))
    decreases k
  {
    if k > j {
      HeldIsLatestDetection(detect, everyN, w, h, j, k - 1);
    }
  }

  /** With `alpha` in [0, 1] the smoothed visibilities stay in [0, 1]. */
  lemma {:induction false} SmoothedVisibilityInRange(args: ExampleArgs, w: int, h: int, k: nat)
    requires 0.0 <= args.alpha <= 1.0
    ensures var s := Smoothed(args.detect, args.everyN, w, h, args.alpha, k);
      s.Some? ==> forall i :: 0 <= i < |s.value| ==> 0.0 <= s.value[i].vis <= 1.0
  {
    if k > 0 {
      SmoothedVisibilityInRange(args, w, h, k - 1);
      var held := Held(args.detect, args.everyN, w, h, k);
      var prev := Smoothed(args.detect, args.everyN, w, h, args.alpha, k - 1);
      if held.Some? {
        SmoothStepKeepsVisibility(args.alpha, prev, held.value);
      }
    }
  }

  /** The outcome of `main`: one of its two `RuntimeError`s, or the frames written. */
  datatype ExampleOutcome = CannotOpenInput | CannotOpenOutput | Finished(written: seq<ExampleFrame>)

  /** The number of frames `main` processes from a capture of `count` frames. */
  function ExampleProcessed(count: nat, args: ExampleArgs): nat {
    ProcessedFrom(1, count, args.display, args.escAfter)
  }

  lemma ExampleOutputsSnoc(frames: seq<Image>, args: ExampleArgs, w: int, h: int, n: nat)
    requires n < |frames|
    ensures ExampleOutputs(frames, args, w, h, n + 1)
      == ExampleOutputs(frames, args, w, h, n) + [ExampleFrame(frames[n], Overlay(args, w, h, n + 1))]
  {
  }

  /** One iteration's inference step: `last_pts` after frame `k`. */
  method InferStep(args: ExampleArgs, w: int, h: int, k: nat, lastPts: Option<seq<Landmark>>) returns (next: Option<seq<Landmark>>)
    requires k >= 1 && lastPts == Held(args.detect, args.everyN, w, h, k - 1)
    ensures next == Held(args.detect, args.everyN, w, h, k)
  {
    next := lastPts;
    if args.everyN <= 1 || k % args.everyN == 0 {
      var pts := ExtractLandmarksPx(args.detect(k), w, h);
      if pts.Some? {
        next := pts;
      }
    }
  }

  /** One iteration's drawing step: the overlay for frame `k`, updating the smoother when a pose is held. */
  method OverlayStep(args: ExampleArgs, w: int, h: int, k: nat, lastPts: Option<seq<Landmark>>, smoother: EMASmoother)
    returns (overlay: Option<seq<DrawOp>>)
    requires k >= 1 && EdgesInRange(args.edges) && smoother.alpha == args.alpha
    requires lastPts == Held(args.detect, args.everyN, w, h, k)
    requires smoother.state == Smoothed(args.detect, args.everyN, w, h, args.alpha, k - 1)
    modifies smoother`state
    ensures smoother.state == Smoothed(args.detect, args.everyN, w, h, args.alpha, k)
    ensures overlay == Overlay(args, w, h, k)
  {
    overlay := None;
    if lastPts.Some? {
      var smoothed := smoother.Update(lastPts.value);
      var ops := DrawLandmarks(smoothed, args.edges, MinVis);
      overlay := Some(ops);
    }
  }

  /** The work on frame `k`: infer when due, then smooth and draw the held pose. */
  method ProcessFrame(args: ExampleArgs, w: int, h: int, k: nat, lastPts: Option<seq<Landmark>>, smoother: EMASmoother)
    returns (held: Option<seq<Landmark>>, overlay: Option<seq<DrawOp>>)
    requires k >= 1 && EdgesInRange(args.edges) && smoother.alpha == args.alpha
    requires lastPts == Held(args.detect, args.everyN, w, h, k - 1)
    requires smoother.state == Smoothed(args.detect, args.everyN, w, h, args.alpha, k - 1)
    modifies smoother`state
    ensures held == Held(args.detect, args.everyN, w, h, k)
    ensures smoother.state == Smoothed(args.detect, args.everyN, w, h, args.alpha, k)
    ensures overlay == Overlay(args, w, h, k)
  {
    held := InferStep(args, w, h, k, lastPts);
    overlay := OverlayStep(args, w, h, k, held, smoother);
  }

  /** One pass of the loop body up to the write: `ok == false` when the read fails and nothing changes. */
  method ReadAndWrite(cap: Capture, writer: Writer<ExampleFrame>, smoother: EMASmoother, args: ExampleArgs,
                      frameIdx: nat, lastPts: Option<seq<Landmark>>)
    returns (ok: bool, nextIdx: nat, held: Option<seq<Landmark>>)
    requires cap.isOpen && !cap.released && writer.isOpen && !writer.released
    requires EdgesInRange(args.edges) && smoother.alpha == args.alpha
    requires cap.pos == frameIdx <= |cap.frames|
    requires writer.written == ExampleOutputs(cap.frames, args, cap.width, cap.height, frameIdx)
    requires lastPts == Held(args.detect, args.everyN, cap.width, cap.height, frameIdx)
    requires smoother.state == Smoothed(args.detect, args.everyN, cap.width, cap.height, args.alpha, frameIdx)
    modifies cap`pos, writer`written, smoother`state
    ensures !ok ==> frameIdx == |cap.frames| && nextIdx == frameIdx && cap.pos == frameIdx
    ensures !ok ==> writer.written == old(writer.written) && smoother.state == old(smoother.state) && held == lastPts
    ensures ok ==> nextIdx == frameIdx + 1 && cap.pos == nextIdx <= |cap.frames|
    ensures ok ==> writer.written == ExampleOutputs(cap.frames, args, cap.width, cap.height, nextIdx)
    ensures ok ==> held == Held(args.detect, args.everyN, cap.width, cap.height, nextIdx)
    ensures ok ==> smoother.state == Smoothed(args.detect, args.everyN, cap.width, cap.height, args.alpha, nextIdx)
  {
    var frame;
    ok, frame := cap.Read();
    if !ok {
      return false, frameIdx, lastPts;
    }
    nextIdx := frameIdx + 1;
    var overlay;
    held, overlay := ProcessFrame(args, cap.width, cap.height, nextIdx, lastPts, smoother);
    ExampleOutputsSnoc(cap.frames, args, cap.width, cap.height, frameIdx);
    writer.Write(ExampleFrame(frame, overlay));
  }

  /** The `while True` loop of `main`: read, infer when due, draw the held pose, write, stop on ESC. */
  method ExampleLoop(cap: Capture, writer: Writer<ExampleFrame>, args: ExampleArgs)
    requires cap.isOpen && cap.pos == 0 && !cap.released && EdgesInRange(args.edges)
    requires writer.isOpen && !writer.released && writer.written == []
    modifies cap`pos, writer`written
    ensures writer.written
      == ExampleOutputs(cap.frames, args, cap.width, cap.height, ExampleProcessed(|cap.frames|, args))
  {
    var smoother := new EMASmoother(args.alpha);
    var lastPts: Option<seq<Landmark>> := None;
    var frameIdx: nat := 0;
    while true
      invariant cap.pos == frameIdx <= |cap.frames|
      invariant writer.written == ExampleOutputs(cap.frames, args, cap.width, cap.height, frameIdx)
      invariant lastPts == Held(args.detect, args.everyN, cap.width, cap.height, frameIdx)
      invariant smoother.state == Smoothed(args.detect, args.everyN, cap.width, cap.height, args.alpha, frameIdx)
      invariant forall j :: 1 <= j <= frameIdx ==> !StopsAfter(j, args.display, args.escAfter)
      decreases |cap.frames| - frameIdx
    {
      var ok;
      ok, frameIdx, lastPts := ReadAndWrite(cap, writer, smoother, args, frameIdx, lastPts);
      if !ok {
        break;
      }
      if args.display && args.escAfter(frameIdx) {
        break;
      }
      assert !StopsAfter(frameIdx, args.display, args.escAfter);
    }
    ProcessedAtExit(frameIdx, |cap.frames|, args.display, args.escAfter);
  }

  /** `main`, after argument parsing: the capture and whether the writer opens are given. */
  method RunExample(cap: Capture, writerOpens: bool, args: ExampleArgs) returns (outcome: ExampleOutcome, writer: Writer?<ExampleFrame>)
    requires cap.pos == 0 && !cap.released && EdgesInRange(args.edges)
    modifies cap
    ensures !cap.isOpen ==> outcome == CannotOpenInput && writer == null && !cap.released
    ensures cap.isOpen && !writerOpens ==> outcome == CannotOpenOutput && writer != null && !cap.released && !writer.released
    ensures outcome.Finished? ==> cap.isOpen && writerOpens && cap.released && writer != null && writer.released
    ensures cap.isOpen && writerOpens ==>
      outcome.Finished? &&
      outcome.written == ExampleOutputs(cap.frames, args, cap.width, cap.height, ExampleProcessed(|cap.frames|, args))
    ensures writer != null ==>
      fresh(writer) && writer.fps == FpsOrDefault(cap.fps) && writer.width == cap.width && writer.height == cap.height
  {
    if !cap.isOpen {
      return CannotOpenInput, null;
    }
    writer := new Writer(writerOpens, FpsOrDefault(cap.fps), cap.width, cap.height);
    if !writer.isOpen {
      return CannotOpenOutput, writer;
    }
    ExampleLoop(cap, writer, args);
    cap.Release();
    writer.Release();
    return Finished(writer.written), writer;
  }
}
