/**
 * The MediaPipe demo script (backend/scripts/test_mediapipe.py): it puts the
 * backend root on the import path once, then reads frames, infers on every
 * `every_n`-th one, draws the last inference result, and writes each frame
 * until the frames run out, `max_frames` is passed or ESC is seen. The pose
 * model is a parameter mapping a frame number to its result (of any type
 * `P`), or to none.
 */
module MediapipeDemo {
  import opened Wrappers
  import opened VideoIo
  import opened FrameLoop
  import MediapipeExample

  /** `sys.path`, the list of import roots. */
  class SysPath {
    var entries: seq<string>

    constructor (entries: seq<string>)
      ensures this.entries == entries
    {
      this.entries := entries;
    }

    /** `ensure_repo_on_path`: inserts the root in front only when it is absent. */
    method EnsureOnPath(root: string)
      modifies this
      ensures entries == WithRoot(old(entries), root)
    {
      if root !in entries {
        entries := [root] + entries;
      }
    }
  }

  /** The import path after `ensure_repo_on_path`. */
  function WithRoot(entries: seq<string>, root: string): (r: seq<string>)
    ensures root in r
    ensures forall e :: e in entries ==> e in r
  {
    if root in entries then entries else [root] + entries
  }

  /** Calling it again changes nothing. */
  lemma WithRootIdempotent(entries: seq<string>, root: string)
    ensures WithRoot(WithRoot(entries, root), root) == WithRoot(entries, root)
  {
  }

  /** The root occurs once when it was absent, and no more often than before when it was present. */
  lemma WithRootCopies(entries: seq<string>, root: string)
    ensures multiset(WithRoot(entries, root))[root] == if root in entries then multiset(entries)[root] else 1
    ensures root !in entries ==> WithRoot(entries, root)[0] == root && WithRoot(entries, root)[1..] == entries
  {
    if root !in entries {
      assert multiset(entries)[root] == 0;
      assert multiset([root] + entries) == multiset{root} + multiset(entries);
    }
  }

  /** A written frame: unchanged, or drawn over with a pose. */
  datatype DemoFrame<P> = Plain(image: Image) | Visualized(image: Image, pose: P)

  datatype DemoArgs<P> = DemoArgs(
    everyN: int,
    display: bool,
    maxFrames: int,
    infer: nat -> Option<P>,
    escAfter: nat -> bool)

  /** `last_pose` after frame `k`: every inference overwrites it, a `None` result included. */
  function LastPose<P>(infer: nat -> Option<P>, everyN: int, k: nat): Option<P> {
    if k == 0 then None
    else if ShouldInfer(k, everyN) then infer(k)
    else LastPose(infer, everyN, k - 1)
  }

  function Rendered<P>(frame: Image, pose: Option<P>): DemoFrame<P> {
    if pose.None? then Plain(frame) else Visualized(frame, pose.value)
  }

  /** The frames the writer receives for the first `n` frames. */
  function DemoOutputs<P>(frames: seq<Image>, args: DemoArgs<P>, n: nat): (r: seq<DemoFrame<P>>)
    requires n <= |frames|
    ensures |r| == n
  {
    if n == 0 then []
    else DemoOutputs(frames, args, n - 1) + [Rendered(frames[n - 1], LastPose(args.infer, args.everyN, n))]
  }

  /** Each processed frame is written once, in order: plain while no pose is held, drawn over otherwise. */
  lemma {:induction false} DemoOutputsFrames<P>(frames: seq<Image>, args: DemoArgs<P>, n: nat)
    requires n <= |frames|
    ensures forall k :: 0 <= k < n ==> DemoOutputs(frames, args, n)[k].image == frames[k]
    ensures forall k :: 0 <= k < n ==>
      (DemoOutputs(frames, args, n)[k].Plain? <==> LastPose(args.infer, args.everyN, k + 1).None?)
  {
    if n > 0 {
      DemoOutputsFrames(frames, args, n - 1);
    }
  }

  /**
   * How many frames `max_frames` lets through: 0 means no limit, a positive value
   * caps the count, and a negative one stops at the first frame, since
   * `frame_idx > max_frames` then holds at once.
   */
  function FrameLimit(count: nat, maxFrames: int): (n: nat)
    ensures n <= count
    ensures maxFrames == 0 ==> n == count
    ensures maxFrames > 0 ==> n <= maxFrames && (n == count || n == maxFrames)
    ensures maxFrames < 0 ==> n == 0
  {
    if maxFrames == 0 then count
    else if maxFrames < 0 then 0
    else if count <= maxFrames then count
    else maxFrames
  }

  /** The number of frames `main` writes from a capture of `count` frames. */
  function DemoProcessed<P>(count: nat, args: DemoArgs<P>): nat {
    ProcessedFrom(1, FrameLimit(count, args.maxFrames), args.display, args.escAfter)
  }

  /** `max_frames` bounds what is written; without a limit and without a window every frame is written. */
  lemma DemoProcessedBounds<P>(count: nat, args: DemoArgs<P>)
    ensures DemoProcessed(count, args) <= count
    ensures args.maxFrames > 0 ==> DemoProcessed(count, args) <= args.maxFrames
    ensures args.maxFrames < 0 ==> DemoProcessed(count, args) == 0
    ensures args.maxFrames == 0 && !args.display ==> DemoProcessed(count, args) == count
  {
    ProcessedFromMeaning(FrameLimit(count, args.maxFrames), args.display, args.escAfter);
  }

  /** The pose drawn on frame `k` is the result of the latest inference at or before `k`, whatever it was. */
  lemma {:induction false} LastPoseIsLatestInference<P>(infer: nat -> Option<P>, everyN: int, j: nat, k: nat)
    requires 1 <= j <= k && ShouldInfer(j, everyN)
    requires forall m :: j < m <= k ==> !ShouldInfer(m, everyN)
    ensures LastPose(infer, everyN, k) == infer(j)
    decreases k
  {
    if k > j {
      LastPoseIsLatestInference(infer, everyN, j, k - 1);
    }
  }

  /**
   * The two scripts hold detections differently: after a detection on frame 1 and
   * none on frame 2, the example script still draws frame 1's landmarks while
   * this script draws nothing.
   */
  lemma HoldRulesDiffer()
    ensures var detect: nat -> Option<MediapipeExample.PoseLandmarks> := k => if k == 1 then Some([]) else None;
      && MediapipeExample.Held(detect, 1, 640, 480, 2).Some?
      && LastPose(detect, 1, 2) == None
  {
  }

  lemma DemoOutputsSnoc<P>(frames: seq<Image>, args: DemoArgs<P>, n: nat)
    requires n < |frames|
    ensures DemoOutputs(frames, args, n + 1)
      == DemoOutputs(frames, args, n) + [Rendered(frames[n], LastPose(args.infer, args.everyN, n + 1))]
  {
  }

  /** The `while True` loop of `main`. */
  method DemoLoop<P>(cap: Capture, writer: Writer<DemoFrame<P>>, args: DemoArgs<P>)
    requires cap.isOpen && cap.pos == 0 && !cap.released
    requires writer.isOpen && !writer.released && writer.written == []
    modifies cap`pos, writer`written
    ensures writer.written == DemoOutputs(cap.frames, args, DemoProcessed(|cap.frames|, args))
  {
    var limit := FrameLimit(|cap.frames|, args.maxFrames);
    var frameIdx: nat := 0;
    var lastPose: Option<P> := None;
    ghost var processed: nat := 0;
    while true
      invariant cap.pos == frameIdx == processed <= limit
      invariant writer.written == DemoOutputs(cap.frames, args, processed)
      invariant lastPose == LastPose(args.infer, args.everyN, frameIdx)
      invariant forall j :: 1 <= j <= processed ==> !StopsAfter(j, args.display, args.escAfter)
      decreases |cap.frames| - frameIdx
    {
      var ok, frame := cap.Read();
      if !ok {
        break;
      }
      frameIdx := frameIdx + 1;
      if args.maxFrames != 0 && frameIdx > args.maxFrames {
        break;
      }
      if args.everyN <= 1 || frameIdx % args.everyN == 0 {
        lastPose := args.infer(frameIdx);
      }
      var rendered := if lastPose.None? then Plain(frame) else Visualized(frame, lastPose.value);
      DemoOutputsSnoc(cap.frames, args, processed);
      writer.Write(rendered);
      processed := frameIdx;
      if args.display && args.escAfter(frameIdx) {
        break;
      }
      assert !StopsAfter(frameIdx, args.display, args.escAfter);
    }
    ProcessedAtExit(processed, limit, args.display, args.escAfter);
  }

  /** `main`: 2 when the video does not open, 3 when the writer does not, 0 after the loop. */
  method RunDemo<P>(sysPath: SysPath, repoRoot: string, cap: Capture, writerOpens: bool, args: DemoArgs<P>)
    returns (code: int, writer: Writer?<DemoFrame<P>>)
    requires cap.pos == 0 && !cap.released
    modifies sysPath, cap
    ensures sysPath.entries == WithRoot(old(sysPath.entries), repoRoot)
    ensures !cap.isOpen ==> code == 2 && writer == null && !cap.released
    ensures cap.isOpen && !writerOpens ==> code == 3 && writer != null && !cap.released
    ensures cap.isOpen && writerOpens ==>
      code == 0 && writer != null && cap.released && writer.released &&
      writer.written == DemoOutputs(cap.frames, args, DemoProcessed(|cap.frames|, args))
    ensures writer != null ==>
      fresh(writer) && writer.fps == FpsOrDefault(cap.fps) && writer.width == cap.width && writer.height == cap.height
  {
    sysPath.EnsureOnPath(repoRoot);
    if !cap.isOpen {
      return 2, null;
    }
    writer := new Writer(writerOpens, FpsOrDefault(cap.fps), cap.width, cap.height);
    if !writer.isOpen {
      return 3, writer;
    }
    DemoLoop(cap, writer, args);
    cap.Release();
    writer.Release();
    return 0, writer;
  }
}
