/**
 * The keypoint quick view (frontend/src/components/KeypointsViewer.tsx):
 * the canvas size read from the payload's metadata, the joint list, the two
 * selection effects (frame clamp, joint fallback), the selected joint's
 * trajectory and the per-frame markers. The canvas is a list of draw commands.
 */
module KeypointsViewer {
  import opened Wrappers
  import opened Text
  import opened Selection
  import opened Types
  import opened JointOrder

  const DefaultWidth: nat := 640
  const DefaultHeight: nat := 360
  const DefaultJoint: string := "0"
  const ResolutionKey: string := "output_resolution"
  /** A keypoint whose confidence is below this draws no marker. */
  const MinMarkerConfidence: real := 0.2
  const SelectedRadius: nat := 6
  const OtherRadius: nat := 4
  const NoKeypointsText: string := "No keypoints loaded"

  // ---------------------------------------------------------------------
  // parseResolution

  /** `meta?.output_resolution` when it is a string, else the empty string. */
  function ResolutionText(meta: Option<map<string, MetaValue>>): string {
    if meta.Some? && ResolutionKey in meta.value && meta.value[ResolutionKey].MetaString?
    then meta.value[ResolutionKey].text
    else ""
  }

  /** `t` is exactly `ws`, an `x`, and `hs`, both non-empty digit runs: the text `/^(\d+)x(\d+)$/` matches. */
  predicate IsResolutionText(t: string, ws: string, hs: string) {
    t == ws + "x" + hs && |ws| > 0 && |hs| > 0 && AllDigits(ws) && AllDigits(hs)
  }

  /** The two digit groups of `/^(\d+)x(\d+)$/`, read as numbers. */
  function MatchResolution(t: string): Option<(nat, nat)> {
    var k := IndexOf(t, 'x');
    if 0 < k && k + 1 < |t| && AllDigits(t[..k]) && AllDigits(t[k + 1..])
    then Some((ValueOf(t[..k]), ValueOf(t[k + 1..])))
    else None
  }

  /** The match succeeds exactly on `<digits>x<digits>` and yields the two numbers. */
  lemma MatchResolutionCorrect(t: string)
    ensures forall ws, hs :: IsResolutionText(t, ws, hs) ==> MatchResolution(t) == Some((ValueOf(ws), ValueOf(hs)))
    ensures MatchResolution(t).Some? ==>
      exists ws, hs :: IsResolutionText(t, ws, hs) && MatchResolution(t).value == (ValueOf(ws), ValueOf(hs))
  {
    forall ws, hs | IsResolutionText(t, ws, hs)
      ensures MatchResolution(t) == Some((ValueOf(ws), ValueOf(hs)))
    {
      assert t[|ws|] == 'x';
      forall i | 0 <= i < |ws| ensures t[i] != 'x' {
        assert t[i] == ws[i] && IsDigit(ws[i]);
      }
      IndexOfIs(t, 'x', |ws|);
      assert t[..|ws|] == ws;
      assert t[|ws| + 1..] == hs;
    }
    if MatchResolution(t).Some? {
      var k := IndexOf(t, 'x');
      assert t == t[..k] + "x" + t[k + 1..];
      assert IsResolutionText(t, t[..k], t[k + 1..]);
    }
  }

  /** `parseResolution(meta)`: the canvas width and height. */
  function ParseResolution(meta: Option<map<string, MetaValue>>): (r: (nat, nat)) {
    match MatchResolution(ResolutionText(meta))
    case Some(size) => size
    case None => (DefaultWidth, DefaultHeight)
  }

  /** Writing a size as `<w>x<h>` in the metadata and parsing it gives the size back. */
  lemma ParseResolutionRoundTrip(meta: Option<map<string, MetaValue>>, w: nat, h: nat)
    requires meta.Some? && ResolutionKey in meta.value
    requires meta.value[ResolutionKey] == MetaString(ToDecimal(w) + "x" + ToDecimal(h))
    ensures ParseResolution(meta) == (w, h)
  {
    var t := ToDecimal(w) + "x" + ToDecimal(h);
    assert IsResolutionText(t, ToDecimal(w), ToDecimal(h));
    MatchResolutionCorrect(t);
    ValueOfToDecimal(w);
    ValueOfToDecimal(h);
  }

  /** Without a `<digits>x<digits>` string under `output_resolution` the canvas is 640 by 360. */
  lemma ParseResolutionDefault(meta: Option<map<string, MetaValue>>)
    requires forall ws, hs :: !IsResolutionText(ResolutionText(meta), ws, hs)
    ensures ParseResolution(meta) == (640, 360)
  {
    MatchResolutionCorrect(ResolutionText(meta));
  }

  /** Missing metadata, a non-string value and the text "bogus" all give 640 by 360. */
  lemma ParseResolutionExamples(m: map<string, MetaValue>)
    ensures ParseResolution(None) == (640, 360)
    ensures ParseResolution(Some(m[ResolutionKey := MetaOther])) == (640, 360)
    ensures ParseResolution(Some(m[ResolutionKey := MetaString("bogus")])) == (640, 360)
  {
    assert IndexOf("bogus", 'x') == 5;
  }

  // ---------------------------------------------------------------------
  // Frame selection: `maxFrame`, the clamp effect and the frame drawn

  /** `payload?.frames ?? []`. */
  function FramesOf(payload: Option<KeypointsPayload>): seq<FramePoseRecord> {
    if payload.Some? then payload.value.frames else []
  }

  /** `Math.max(0, frames.length - 1)`. */
  function MaxFrame(frameCount: nat): (m: nat)
    ensures frameCount == 0 ==> m == 0
    ensures frameCount > 0 ==> m < frameCount && m + 1 == frameCount
  {
    if frameCount == 0 then 0 else frameCount - 1
  }

  /** The clamp effect: lowers the index to `maxFrame` when above it, never raises it. */
  function ClampFrameIndex(index: nat, frameCount: nat): (r: nat)
    ensures r <= MaxFrame(frameCount)
    ensures r <= index
    ensures index <= MaxFrame(frameCount) ==> r == index
    ensures frameCount > 0 ==> r < frameCount
  {
    if index > MaxFrame(frameCount) then MaxFrame(frameCount) else index
  }

  /** Clamping reaches a fixed point at once: the effect does not fire a second time. */
  lemma ClampFrameIndexIdempotent(index: nat, frameCount: nat)
    ensures ClampFrameIndex(ClampFrameIndex(index, frameCount), frameCount) == ClampFrameIndex(index, frameCount)
  {
  }

  /** `frames[frameIndex] ?? frames[0]`: an index past the end draws the first frame. */
  function ShownFrame(frames: seq<FramePoseRecord>, frameIndex: nat): (f: FramePoseRecord)
    requires frames != []
    ensures f in frames
    ensures frameIndex < |frames| ==> f == frames[frameIndex]
    ensures frameIndex >= |frames| ==> f == frames[0]
  {
    if frameIndex < |frames| then frames[frameIndex] else frames[0]
  }

  // ---------------------------------------------------------------------
  // Joint selection: the joint list and the fallback effect

  /** The names of a frame's keypoints, in order. */
  function KeypointNames(kps: seq<PoseKeypoint>): (r: seq<string>)
    ensures |r| == |kps| && forall i :: 0 <= i < |kps| ==> r[i] == kps[i].name
  {
    seq(|kps|, i requires 0 <= i < |kps| => kps[i].name)
  }

  /** Every keypoint name of every frame, frame by frame, with repeats. */
  function FlatNames(frames: seq<FramePoseRecord>): seq<string> {
    if frames == [] then []
    else FlatNames(frames[..|frames| - 1]) + KeypointNames(frames[|frames| - 1].keypoints)
  }

  predicate NoDuplicates(s: seq<string>) {
    forall i, j :: 0 <= i < j < |s| ==> s[i] != s[j]
  }

  /** The insertion order of a `Set` fed with `s`: first occurrences, in order. */
  function Dedup(s: seq<string>): (r: seq<string>)
    ensures forall x :: x in r <==> x in s
    ensures NoDuplicates(r)
  {
    if s == [] then []
    else
      var d := Dedup(s[..|s| - 1]);
      var x := s[|s| - 1];
      assert forall y :: y in s <==> y in s[..|s| - 1] || y == x by {
        assert s == s[..|s| - 1] + [x];
      }
      if x in d then d else d + [x]
  }

  /** The `jointNames` memo: the deduplicated names, sorted by `numericOrStringSort`. */
  function JointNamesOf(frames: seq<FramePoseRecord>): seq<string> {
    SortNames(Dedup(FlatNames(frames)))
  }

  /** Some keypoint of some frame carries the name `n`. */
  ghost predicate NameOccurs(frames: seq<FramePoseRecord>, n: string) {
    exists f, p :: f in frames && p in f.keypoints && p.name == n
  }

  lemma {:induction false} FlatNamesMembers(frames: seq<FramePoseRecord>, n: string)
    ensures n in FlatNames(frames) <==> NameOccurs(frames, n)
  {
    if frames != [] {
      var prefix := frames[..|frames| - 1];
      var last := frames[|frames| - 1];
      FlatNamesMembers(prefix, n);
      assert frames == prefix + [last];
      var names := KeypointNames(last.keypoints);
      if n in names {
        var i :| 0 <= i < |names| && names[i] == n;
        assert last in frames && last.keypoints[i] in last.keypoints;
      }
      if NameOccurs(frames, n) {
        var f, p :| f in frames && p in f.keypoints && p.name == n;
        if f == last {
          var i :| 0 <= i < |last.keypoints| && last.keypoints[i] == p;
          assert names[i] == n;
        } else {
          assert f in prefix;
        }
      }
      if NameOccurs(prefix, n) {
        var f, p :| f in prefix && p in f.keypoints && p.name == n;
        assert f in frames;
      }
    }
  }

  lemma {:induction false} InsertNoDuplicates(x: string, s: seq<string>)
    requires NoDuplicates(s) && x !in s
    ensures NoDuplicates(Insert(x, s))
  {
    if s != [] && Compare(x, s[0]) >= 0 {
      var t := Insert(x, s[1..]);
      InsertNoDuplicates(x, s[1..]);
      assert s[0] !in multiset(t) by {
        assert s[0] !in s[1..];
      }
      var r := [s[0]] + t;
      forall i, j | 0 <= i < j < |r| ensures r[i] != r[j] {
        if i == 0 {
          assert r[j] == t[j - 1] && r[j] in multiset(t);
        } else {
          assert r[i] == t[i - 1] && r[j] == t[j - 1];
        }
      }
    }
  }

  lemma {:induction false} SortNamesNoDuplicates(s: seq<string>)
    requires NoDuplicates(s)
    ensures NoDuplicates(SortNames(s))
  {
    if s != [] {
      var prefix := s[..|s| - 1];
      var x := s[|s| - 1];
      SortNamesNoDuplicates(prefix);
      assert x !in multiset(SortNames(prefix)) by {
        assert x !in prefix;
      }
      InsertNoDuplicates(x, SortNames(prefix));
    }
  }

  /** The joint list holds every keypoint name of every frame exactly once, and nothing else. */
  lemma JointNamesExact(frames: seq<FramePoseRecord>)
    ensures forall n :: n in JointNamesOf(frames) <==> NameOccurs(frames, n)
    ensures NoDuplicates(JointNamesOf(frames))
  {
    var d := Dedup(FlatNames(frames));
    forall n ensures n in JointNamesOf(frames) <==> NameOccurs(frames, n) {
      FlatNamesMembers(frames, n);
      assert n in JointNamesOf(frames) <==> n in multiset(d);
    }
    SortNamesNoDuplicates(d);
  }

  /** When all names are numeric, or none is, the joint list is in comparator order. */
  lemma JointNamesOrdered(frames: seq<FramePoseRecord>)
    requires Uniform(FlatNames(frames))
    ensures Ordered(JointNamesOf(frames))
  {
    var d := Dedup(FlatNames(frames));
    UniformSubset(FlatNames(frames), d);
    SortNamesOrdered(d);
  }

  /**
   * The joint list does not depend on the order of the frames, as long as
   * all names are numeric with distinct values, or none is numeric.
   */
  lemma JointNamesOrderIndependent(f1: seq<FramePoseRecord>, f2: seq<FramePoseRecord>)
    requires multiset(f1) == multiset(f2)
    requires Uniform(FlatNames(f1)) && DistinctKeys(FlatNames(f1))
    ensures JointNamesOf(f1) == JointNamesOf(f2)
  {
    var j1, j2 := JointNamesOf(f1), JointNamesOf(f2);
    JointNamesExact(f1);
    JointNamesExact(f2);
    forall n ensures n in FlatNames(f1) <==> n in FlatNames(f2) {
      FlatNamesMembers(f1, n);
      FlatNamesMembers(f2, n);
      if NameOccurs(f1, n) {
        var f, p :| f in f1 && p in f.keypoints && p.name == n;
        assert f in multiset(f2);
      }
      if NameOccurs(f2, n) {
        var f, p :| f in f2 && p in f.keypoints && p.name == n;
        assert f in multiset(f1);
      }
    }
    forall n ensures n in j1 <==> n in FlatNames(f1) {
      FlatNamesMembers(f1, n);
    }
    forall n ensures n in j2 <==> n in FlatNames(f1) {
      FlatNamesMembers(f2, n);
    }
    UniformSubset(FlatNames(f1), FlatNames(f2));
    JointNamesOrdered(f1);
    JointNamesOrdered(f2);
    StrictFromOrdered(j1, FlatNames(f1));
    StrictFromOrdered(j2, FlatNames(f1));
    StrictlyOrderedUnique(j1, j2);
  }

  /** Ordered, without repeats, and no two distinct names tie: strictly ordered. */
  lemma StrictFromOrdered(s: seq<string>, names: seq<string>)
    requires Ordered(s) && NoDuplicates(s) && DistinctKeys(names)
    requires forall n :: n in s ==> n in names
    ensures StrictlyOrdered(s)
  {
    forall i, j | 0 <= i < j < |s| ensures Compare(s[i], s[j]) < 0 {
      assert s[i] in names && s[j] in names;
    }
  }

  /** Feeding one more name to the `Set`. */
  lemma DedupSnoc(s: seq<string>, x: string)
    ensures Dedup(s + [x]) == if x in Dedup(s) then Dedup(s) else Dedup(s) + [x]
  {
    assert (s + [x])[..|s|] == s;
  }

  lemma FlatNamesSnoc(frames: seq<FramePoseRecord>, i: nat)
    requires i < |frames|
    ensures FlatNames(frames[..i + 1]) == FlatNames(frames[..i]) + KeypointNames(frames[i].keypoints)
  {
    assert frames[..i + 1][..i] == frames[..i];
  }

  /** The inner loop of `jointNames`: `names.add(point.name)` for each keypoint of one frame. */
  method AddKeypointNames(seen: seq<string>, kps: seq<PoseKeypoint>, ghost fed: seq<string>)
    returns (after: seq<string>)
    requires seen == Dedup(fed)
    ensures after == Dedup(fed + KeypointNames(kps))
  {
    after := seen;
    var j := 0;
    assert fed + KeypointNames(kps[..0]) == fed;
    while j < |kps|
      invariant 0 <= j <= |kps|
      invariant after == Dedup(fed + KeypointNames(kps[..j]))
    {
      assert fed + KeypointNames(kps[..j + 1]) == (fed + KeypointNames(kps[..j])) + [kps[j].name];
      DedupSnoc(fed + KeypointNames(kps[..j]), kps[j].name);
      if kps[j].name !in after {
        after := after + [kps[j].name];
      }
      j := j + 1;
    }
    assert kps[..j] == kps;
  }

  /** `jointNames`: the nested loops fill a `Set` (a list without repeats, in insertion order), then it is sorted. */
  method CollectJointNames(frames: seq<FramePoseRecord>) returns (names: seq<string>)
    ensures names == JointNamesOf(frames)
  {
    var seen: seq<string> := [];
    var i := 0;
    while i < |frames|
      invariant 0 <= i <= |frames|
      invariant seen == Dedup(FlatNames(frames[..i]))
    {
      seen := AddKeypointNames(seen, frames[i].keypoints, FlatNames(frames[..i]));
      FlatNamesSnoc(frames, i);
      i := i + 1;
    }
    assert frames[..i] == frames;
    names := SortNames(seen);
  }

  /** The fallback effect: "0" when there are no joints, the first joint when the selection vanished. */
  function FallbackJoint(names: seq<string>, current: string): (r: string)
    ensures names == [] ==> r == DefaultJoint
    ensures names != [] ==> r in names
    ensures current in names ==> r == current
    ensures names != [] && current !in names ==> r == names[0]
  {
    if names == [] then DefaultJoint
    else if current !in names then names[0]
    else current
  }

  /** The fallback reaches a fixed point at once. */
  lemma FallbackJointIdempotent(names: seq<string>, current: string)
    ensures FallbackJoint(names, FallbackJoint(names, current)) == FallbackJoint(names, current)
  {
  }

  // ---------------------------------------------------------------------
  // Trajectory

  /** Position of the first keypoint named `name`, or `|kps|`. */
  function FindIndex(kps: seq<PoseKeypoint>, name: string): (k: nat)
    ensures k <= |kps|
    ensures k < |kps| ==> kps[k].name == name
    ensures forall i :: 0 <= i < k ==> kps[i].name != name
  {
    if kps == [] then 0 else if kps[0].name == name then 0 else 1 + FindIndex(kps[1..], name)
  }

  /** `keypoints.find((point) => point.name === name)`. */
  function FindKeypoint(kps: seq<PoseKeypoint>, name: string): (r: Option<PoseKeypoint>)
    ensures r.Some? <==> exists i :: 0 <= i < |kps| && kps[i].name == name
    ensures r.Some? ==> r.value == kps[FindIndex(kps, name)] && r.value.name == name
  {
    var k := FindIndex(kps, name);
    if k < |kps| then Some(kps[k]) else None
  }

  predicate HasJoint(f: FramePoseRecord, joint: string) {
    FindKeypoint(f.keypoints, joint).Some?
  }

  function JointTest(joint: string): FramePoseRecord -> bool {
    f => HasJoint(f, joint)
  }

  /** The positions of the frames that contain `joint`, in order. */
  function JointFrames(frames: seq<FramePoseRecord>, joint: string): seq<nat> {
    IndicesWhere(frames, JointTest(joint))
  }

  /** `frames.map(find).filter(Boolean)`: the selected joint's keypoints, frame by frame. */
  function Trajectory(frames: seq<FramePoseRecord>, joint: string): (r: seq<PoseKeypoint>)
    ensures |r| <= |frames|
    ensures forall p :: p in r ==> p.name == joint
  {
    if frames == [] then []
    else
      var rest := Trajectory(frames[..|frames| - 1], joint);
      match FindKeypoint(frames[|frames| - 1].keypoints, joint)
      case Some(p) => rest + [p]
      case None => rest
  }

  /**
   * The trajectory has one point per frame holding the joint, in frame order:
   * point i is the first keypoint named `joint` of the i-th such frame.
   */
  lemma {:induction false} TrajectoryFollowsJointFrames(frames: seq<FramePoseRecord>, joint: string)
    ensures |Trajectory(frames, joint)| == |JointFrames(frames, joint)|
    ensures forall i :: 0 <= i < |JointFrames(frames, joint)| ==>
      Trajectory(frames, joint)[i] == FindKeypoint(frames[JointFrames(frames, joint)[i]].keypoints, joint).value
  {
    if frames != [] {
      var prefix := frames[..|frames| - 1];
      var last := frames[|frames| - 1];
      assert frames == prefix + [last];
      TrajectoryFollowsJointFrames(prefix, joint);
      IndicesWhereSnoc(prefix, last, JointTest(joint));
      var idx := JointFrames(prefix, joint);
      forall i | 0 <= i < |idx| ensures frames[idx[i]] == prefix[idx[i]] {
      }
    }
  }

  /** Frames A at (1,1), none, A at (3,3): the trajectory of A is those two points, in order. */
  lemma TrajectoryExample()
    ensures
      var a1 := PoseKeypoint("A", 1.0, 1.0, 1.0);
      var a3 := PoseKeypoint("A", 3.0, 3.0, 1.0);
      Trajectory([FramePoseRecord(0, [a1], 1.0, None),
                  FramePoseRecord(1, [], 1.0, None),
                  FramePoseRecord(2, [a3], 1.0, None)], "A") == [a1, a3]
  {
    var a1 := PoseKeypoint("A", 1.0, 1.0, 1.0);
    var a3 := PoseKeypoint("A", 3.0, 3.0, 1.0);
    var f0 := FramePoseRecord(0, [a1], 1.0, None);
    var f1 := FramePoseRecord(1, [], 1.0, None);
    var f2 := FramePoseRecord(2, [a3], 1.0, None);
    assert [f0, f1, f2][..2] == [f0, f1];
    assert [f0, f1][..1] == [f0];
    assert [f0][..0] == [];
    assert FindKeypoint(f0.keypoints, "A") == Some(a1);
    assert FindKeypoint(f1.keypoints, "A") == None;
    assert FindKeypoint(f2.keypoints, "A") == Some(a3);
    assert Trajectory([f0], "A") == [a1];
    assert Trajectory([f0, f1], "A") == [a1];
  }

  // ---------------------------------------------------------------------
  // Drawing

  datatype MarkerColor = Highlight | Plain

  /** What the render effect does to the canvas, colours and fonts aside. */
  datatype DrawCommand =
    | Resize(width: nat, height: nat)
    | FillBackground(width: nat, height: nat)
    | Message(text: string)
    | BeginPath
    | MoveTo(x: real, y: real)
    | LineTo(x: real, y: real)
    | Stroke
    | Marker(x: real, y: real, radius: nat, color: MarkerColor)
    | FrameLabel(frameIndex: int)
    | JointLabel(name: string)
    | SelectedLabel(x: real, y: real, confidence: real)

  /** A keypoint that is not below the confidence threshold draws a marker. */
  predicate IsDrawn(p: PoseKeypoint) {
    !(p.confidence < MinMarkerConfidence)
  }

  function MarkerFor(p: PoseKeypoint, joint: string): DrawCommand {
    if p.name == joint then Marker(p.x, p.y, SelectedRadius, Highlight) else Marker(p.x, p.y, OtherRadius, Plain)
  }

  /** The markers of one frame, in keypoint order. */
  function Markers(kps: seq<PoseKeypoint>, joint: string): (r: seq<DrawCommand>)
    ensures forall c :: c in r ==> c.Marker?
  {
    if kps == [] then []
    else
      var rest := Markers(kps[..|kps| - 1], joint);
      var p := kps[|kps| - 1];
      if p.confidence < MinMarkerConfidence then rest else rest + [MarkerFor(p, joint)]
  }

  /**
   * One marker per keypoint with confidence at least 0.2, in order; a marker
   * has radius 6 exactly when its keypoint is the selected joint, else 4.
   */
  lemma {:induction false} MarkersDrawConfidentKeypoints(kps: seq<PoseKeypoint>, joint: string)
    ensures |Markers(kps, joint)| == |IndicesWhere(kps, IsDrawn)|
    ensures forall i :: 0 <= i < |IndicesWhere(kps, IsDrawn)| ==>
      var p := kps[IndicesWhere(kps, IsDrawn)[i]];
      && Markers(kps, joint)[i] == Marker(p.x, p.y, Markers(kps, joint)[i].radius, Markers(kps, joint)[i].color)
      && (Markers(kps, joint)[i].radius == SelectedRadius <==> p.name == joint)
      && (Markers(kps, joint)[i].radius == OtherRadius <==> p.name != joint)
  {
    if kps != [] {
      var prefix := kps[..|kps| - 1];
      var p := kps[|kps| - 1];
      assert kps == prefix + [p];
      MarkersDrawConfidentKeypoints(prefix, joint);
      IndicesWhereSnoc(prefix, p, IsDrawn);
      var idx := IndicesWhere(prefix, IsDrawn);
      forall i | 0 <= i < |idx| ensures kps[idx[i]] == prefix[idx[i]] {
      }
    }
  }

  /** A keypoint with confidence 0.19 draws nothing. */
  lemma LowConfidenceExample(p: PoseKeypoint, joint: string)
    requires p.confidence == 0.19
    ensures Markers([p], joint) == []
  {
    assert [p][..0] == [];
  }

  /** moveTo on the first point, lineTo on each later one. */
  function PathCommands(points: seq<PoseKeypoint>): (r: seq<DrawCommand>)
    ensures |r| == |points|
  {
    if points == [] then []
    else
      var p := points[|points| - 1];
      PathCommands(points[..|points| - 1]) + [if |points| == 1 then MoveTo(p.x, p.y) else LineTo(p.x, p.y)]
  }

  /** The trajectory is stroked only when it has at least two points. */
  function TrajectoryCommands(points: seq<PoseKeypoint>): seq<DrawCommand> {
    if |points| > 1 then [BeginPath] + PathCommands(points) + [Stroke] else []
  }

  function SelectedLabels(frame: FramePoseRecord, joint: string): seq<DrawCommand> {
    match FindKeypoint(frame.keypoints, joint)
    case Some(p) => [SelectedLabel(p.x, p.y, p.confidence)]
    case None => []
  }

  /** The canvas sized from the metadata and filled with the background. */
  function Background(payload: Option<KeypointsPayload>): seq<DrawCommand> {
    var size := ParseResolution(if payload.Some? then payload.value.meta else None);
    [Resize(size.0, size.1), FillBackground(size.0, size.1)]
  }

  /** What is drawn over the shown frame: its markers, then the labels. */
  function FrameCommands(frame: FramePoseRecord, joint: string): seq<DrawCommand> {
    Markers(frame.keypoints, joint) + [FrameLabel(frame.frameIndex), JointLabel(joint)] + SelectedLabels(frame, joint)
  }

  /** Everything one run of the render effect draws. */
  function Scene(hasCanvas: bool, payload: Option<KeypointsPayload>, frameIndex: nat, joint: string): seq<DrawCommand> {
    if !hasCanvas then []
    else
      var frames := FramesOf(payload);
      if frames == [] then Background(payload) + [Message(NoKeypointsText)]
      else
        var frame := ShownFrame(frames, frameIndex);
        Background(payload) + TrajectoryCommands(Trajectory(frames, joint)) + FrameCommands(frame, joint)
  }

  /** The stroke of the trajectory: `beginPath`, the `forEach` of moveTo/lineTo, `stroke`. */
  method DrawTrajectory(trajectory: seq<PoseKeypoint>) returns (cmds: seq<DrawCommand>)
    ensures cmds == TrajectoryCommands(trajectory)
  {
    cmds := [];
    if |trajectory| > 1 {
      cmds := [BeginPath];
      var k := 0;
      while k < |trajectory|
        invariant 0 <= k <= |trajectory|
        invariant cmds == [BeginPath] + PathCommands(trajectory[..k])
      {
        var p := trajectory[k];
        assert trajectory[..k + 1][..k] == trajectory[..k];
        if k == 0 {
          cmds := cmds + [MoveTo(p.x, p.y)];
        } else {
          cmds := cmds + [LineTo(p.x, p.y)];
        }
        k := k + 1;
      }
      assert trajectory[..k] == trajectory;
      cmds := cmds + [Stroke];
    }
  }

  /** The `for` loop over the shown frame's keypoints. */
  method DrawMarkers(kps: seq<PoseKeypoint>, joint: string) returns (cmds: seq<DrawCommand>)
    ensures cmds == Markers(kps, joint)
  {
    cmds := [];
    var m := 0;
    while m < |kps|
      invariant 0 <= m <= |kps|
      invariant cmds == Markers(kps[..m], joint)
    {
      assert kps[..m + 1][..m] == kps[..m];
      var p := kps[m];
      if p.confidence < MinMarkerConfidence {
        m := m + 1;
        continue;
      }
      cmds := cmds + [MarkerFor(p, joint)];
      m := m + 1;
    }
    assert kps[..m] == kps;
  }

  /** The render effect. */
  method Render(hasCanvas: bool, payload: Option<KeypointsPayload>, frameIndex: nat, joint: string)
    returns (cmds: seq<DrawCommand>)
    ensures cmds == Scene(hasCanvas, payload, frameIndex, joint)
  {
    if !hasCanvas {
      return [];
    }
    var size := ParseResolution(if payload.Some? then payload.value.meta else None);
    cmds := [Resize(size.0, size.1), FillBackground(size.0, size.1)];
    var frames := FramesOf(payload);
    if |frames| == 0 {
      cmds := cmds + [Message(NoKeypointsText)];
      return;
    }
    var frame := ShownFrame(frames, frameIndex);
    var path := DrawTrajectory(Trajectory(frames, joint));
    var markers := DrawMarkers(frame.keypoints, joint);
    cmds := cmds + path + markers + [FrameLabel(frame.frameIndex), JointLabel(joint)];
    var selected := FindKeypoint(frame.keypoints, joint);
    if selected.Some? {
      cmds := cmds + [SelectedLabel(selected.value.x, selected.value.y, selected.value.confidence)];
    }
  }

  /** With no payload or no frames only the background and the message are drawn. */
  lemma EmptySceneIsPlaceholder(payload: Option<KeypointsPayload>, frameIndex: nat, joint: string)
    requires FramesOf(payload) == []
    ensures forall c :: c in Scene(true, payload, frameIndex, joint) ==>
      c.Resize? || c.FillBackground? || c == Message(NoKeypointsText)
    ensures |Scene(true, payload, frameIndex, joint)| == 3
  {
  }

  /** The path is stroked exactly when at least two frames hold the selected joint. */
  lemma SceneStrokesOnlyLongTrajectories(payload: Option<KeypointsPayload>, frameIndex: nat, joint: string)
    requires FramesOf(payload) != []
    ensures Stroke in Scene(true, payload, frameIndex, joint) <==> |JointFrames(FramesOf(payload), joint)| >= 2
  {
    var frames := FramesOf(payload);
    var traj := Trajectory(frames, joint);
    assert |traj| == |JointFrames(frames, joint)| by { TrajectoryFollowsJointFrames(frames, joint); }
    var frame := ShownFrame(frames, frameIndex);
    assert Stroke !in Background(payload);
    assert Stroke !in FrameCommands(frame, joint) by {
      assert Stroke !in Markers(frame.keypoints, joint);
    }
    StrokeOnlyFromTrajectory(Background(payload), traj, FrameCommands(frame, joint));
  }

  /** Around commands that never stroke, a stroke comes only from a trajectory of two or more points. */
  lemma StrokeOnlyFromTrajectory(before: seq<DrawCommand>, traj: seq<PoseKeypoint>, after: seq<DrawCommand>)
    requires Stroke !in before && Stroke !in after
    ensures Stroke in before + TrajectoryCommands(traj) + after <==> |traj| > 1
  {
    PathHasNoStroke(traj);
  }

  lemma {:induction false} PathHasNoStroke(points: seq<PoseKeypoint>)
    ensures forall c :: c in PathCommands(points) ==> c.MoveTo? || c.LineTo?
  {
    if points != [] {
      PathHasNoStroke(points[..|points| - 1]);
    }
  }

  /** The selection the viewer keeps: the slider position and the chosen joint. */
  class ViewerSelection {
    var frameIndex: nat
    var jointName: string

    constructor ()
      ensures frameIndex == 0 && jointName == DefaultJoint
    {
      frameIndex := 0;
      jointName := DefaultJoint;
    }

    /** The slider's `onChange`. */
    method MoveSlider(value: nat)
      modifies this`frameIndex
      ensures frameIndex == value
    {
      frameIndex := value;
    }

    /** The joint select's `onChange`. */
    method PickJoint(name: string)
      modifies this`jointName
      ensures jointName == name
    {
      jointName := name;
    }

    /** The effect keyed on `frameIndex` and `maxFrame`. */
    method ClampFrame(frameCount: nat)
      modifies this`frameIndex
      ensures frameIndex == ClampFrameIndex(old(frameIndex), frameCount)
    {
      if frameIndex > MaxFrame(frameCount) {
        frameIndex := MaxFrame(frameCount);
      }
    }

    /** The effect keyed on `jointNames` and `jointName`. */
    method FallBackJoint(names: seq<string>)
      modifies this`jointName
      ensures jointName == FallbackJoint(names, old(jointName))
    {
      if |names| == 0 {
        jointName := DefaultJoint;
        return;
      }
      if jointName !in names {
        jointName := names[0];
      }
    }
  }
}
