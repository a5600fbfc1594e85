/**
 * The OpenPose debug script (backend/scripts/openpose_test.py): it reads at
 * most `MAX_FRAMES` frames, writes each one resized to the output size,
 * saves every `SAVE_JPG_EVERY`-th frame under a zero-padded name and shows a
 * preview. The output size falls back to the first frame's size, and the
 * writer falls back from the mp4v codec to avc1.
 */
module OpenposeTest {
  import opened Wrappers
  import opened Text
  import opened VideoIo

  /** The module-level switches. */
  datatype Settings = Settings(maxFrames: int, preview: bool, writeVideo: bool, saveJpgEvery: int)

  /** `MAX_FRAMES = 200`, `PREVIEW = True`, `WRITE_VIDEO = True`, `SAVE_JPG_EVERY = 0`. */
  const Defaults: Settings := Settings(200, true, true, 0)

  const FpsFloor: real := 0.000001
  const FallbackFps: real := 30.0

  /** `safe_fps`: a missing or non-positive (up to 1e-6) rate is replaced by the fallback. */
  function SafeFps(fps: Option<real>, fallback: real): (r: real)
    ensures fps.None? || fps.value <= FpsFloor ==> r == fallback
    ensures fps.Some? && fps.value > FpsFloor ==> r == fps.value
    ensures fallback > FpsFloor ==> r > FpsFloor
  {
    if fps.None? || fps.value <= FpsFloor then fallback else fps.value
  }

  /** `f"frame_{i:06d}.jpg"`. */
  function JpgName(i: nat): string {
    "frame_" + ZeroPad(ToDecimal(i), 6) + ".jpg"
  }

  /** Reads the frame number back from a file name of that shape. */
  function IndexOfJpgName(name: string): Option<nat> {
    if |name| > 10 && name[..6] == "frame_" && name[|name| - 4..] == ".jpg" && AllDigits(name[6..|name| - 4])
    then Some(ValueOf(name[6..|name| - 4]))
    else None
  }

  /** The name loses nothing: the frame number is read back from it, so two frames never share a name. */
  lemma JpgNameRoundTrip(i: nat)
    ensures IndexOfJpgName(JpgName(i)) == Some(i)
  {
    var digits := ZeroPad(ToDecimal(i), 6);
    ZeroPadDigits(ToDecimal(i), 6);
    ValueOfToDecimal(i);
    FramedDigitsReadBack(digits);
  }

  lemma FramedDigitsReadBack(digits: string)
    requires |digits| > 0 && AllDigits(digits)
    ensures IndexOfJpgName("frame_" + digits + ".jpg") == Some(ValueOf(digits))
  {
    var name := "frame_" + digits + ".jpg";
    assert name[..6] == "frame_";
    assert name[|name| - 4..] == ".jpg";
    assert name[6..|name| - 4] == digits;
  }

  /** Below a million the number takes exactly six digits, so every name has 16 characters. */
  lemma JpgNameLength(i: nat)
    requires i < 1000000
    ensures |JpgName(i)| == 16
  {
    assert Pow10(6) == 1000000;
    ToDecimalLength(i, 6);
    ZeroPadDigits(ToDecimal(i), 6);
  }

  /** `SAVE_JPG_EVERY and SAVE_JPG_EVERY > 0 and i % SAVE_JPG_EVERY == 0`. */
  predicate ShouldSave(settings: Settings, i: nat) {
    settings.saveJpgEvery != 0 && settings.saveJpgEvery > 0 && i % settings.saveJpgEvery == 0
  }

  /** The frame as written: resized to the output size when its size differs. */
  function Fit(img: Image, w: int, h: int): (r: Image)
    ensures r.width == w && r.height == h && r.id == img.id
    ensures img.width == w && img.height == h ==> r == img
  {
    if img.width != w || img.height != h then Image(img.id, w, h) else img
  }

  datatype Codec = Mp4v | Avc1

  /** The codec the writer ends up with: mp4v when it opens, avc1 otherwise, none when neither does. */
  function ChooseCodec(opens: Codec -> bool): (c: Option<Codec>)
    ensures c.Some? ==> opens(c.value)
    ensures c.None? <==> !opens(Mp4v) && !opens(Avc1)
    ensures opens(Mp4v) ==> c == Some(Mp4v)
  {
    if opens(Mp4v) then Some(Mp4v) else if opens(Avc1) then Some(Avc1) else None
  }

  datatype Saved = Saved(name: string, image: Image)

  /** The preview: the image is created on the first frame and only updated afterwards. */
  datatype PreviewEvent = Show(image: Image) | Update(image: Image)

  datatype OpenposeError = VideoNotFound | CannotOpen | NoFirstFrame | WriterFailed

  /** What a completed run produced; `writerFps` is the rate the writer was opened with, `None` without a writer. */
  datatype Run = Run(
    written: seq<Image>,
    saved: seq<Saved>,
    preview: seq<PreviewEvent>,
    codec: Option<Codec>,
    writerFps: Option<real>)

  /** `while i < MAX_FRAMES`, stopping early when the frames run out. */
  function Processed(settings: Settings, count: nat): (n: nat)
    ensures n <= count
    ensures settings.maxFrames <= 0 ==> n == 0
    ensures settings.maxFrames > 0 ==> n <= settings.maxFrames && (n == count || n == settings.maxFrames)
  {
    if settings.maxFrames <= 0 then 0
    else if count <= settings.maxFrames then count
    else settings.maxFrames
  }

  /** Frame `k` as the loop leaves it: resized when a writer exists. */
  function FrameOut(settings: Settings, frames: seq<Image>, w: int, h: int, k: nat): Image
    requires k < |frames|
  {
    if settings.writeVideo then Fit(frames[k], w, h) else frames[k]
  }

  function WrittenFrames(settings: Settings, frames: seq<Image>, w: int, h: int, n: nat): (r: seq<Image>)
    requires n <= |frames|
    ensures |r| == if settings.writeVideo then n else 0
  {
    if n == 0 || !settings.writeVideo then []
    else WrittenFrames(settings, frames, w, h, n - 1) + [Fit(frames[n - 1], w, h)]
  }

  function SavedFrames(settings: Settings, frames: seq<Image>, w: int, h: int, n: nat): seq<Saved>
    requires n <= |frames|
  {
    if n == 0 then []
    else
      SavedFrames(settings, frames, w, h, n - 1)
      + (if ShouldSave(settings, n - 1) then [Saved(JpgName(n - 1), FrameOut(settings, frames, w, h, n - 1))] else [])
  }

  function PreviewEvents(settings: Settings, frames: seq<Image>, w: int, h: int, n: nat): seq<PreviewEvent>
    requires n <= |frames|
  {
    if n == 0 || !settings.preview then []
    else if n == 1 then [Show(FrameOut(settings, frames, w, h, 0))]
    else PreviewEvents(settings, frames, w, h, n - 1) + [Update(FrameOut(settings, frames, w, h, n - 1))]
  }

  /** Every written frame has the output size, and frame `k` of the output is frame `k` of the input. */
  lemma {:induction false} WrittenFramesFit(settings: Settings, frames: seq<Image>, w: int, h: int, n: nat)
    requires n <= |frames|
    ensures forall k :: 0 <= k < |WrittenFrames(settings, frames, w, h, n)| ==>
      WrittenFrames(settings, frames, w, h, n)[k] == Fit(frames[k], w, h)
  {
    if n > 0 && settings.writeVideo {
      WrittenFramesFit(settings, frames, w, h, n - 1);
    }
  }

  /** Frame `i` is saved, under its own name, exactly when the schedule selects it. */
  lemma {:induction false} SavedFramesFollowSchedule(settings: Settings, frames: seq<Image>, w: int, h: int, n: nat)
    requires n <= |frames|
    ensures forall s :: s in SavedFrames(settings, frames, w, h, n) ==>
      exists i :: 0 <= i < n && ShouldSave(settings, i) && s == Saved(JpgName(i), FrameOut(settings, frames, w, h, i))
    ensures forall i :: 0 <= i < n && ShouldSave(settings, i) ==>
      Saved(JpgName(i), FrameOut(settings, frames, w, h, i)) in SavedFrames(settings, frames, w, h, n)
  {
    if n > 0 {
      SavedFramesFollowSchedule(settings, frames, w, h, n - 1);
    }
  }

  /** With the shipped settings (`SAVE_JPG_EVERY = 0`) nothing is saved. */
  lemma DefaultsSaveNothing(frames: seq<Image>, w: int, h: int, n: nat)
    requires n <= |frames|
    ensures SavedFrames(Defaults, frames, w, h, n) == []
  {
    if n > 0 {
      DefaultsSaveNothing(frames, w, h, n - 1);
    }
  }

  /** One `Show` for the first frame, then one `Update` per later frame. */
  lemma {:induction false} PreviewShowsOnceThenUpdates(settings: Settings, frames: seq<Image>, w: int, h: int, n: nat)
    requires n <= |frames|
    ensures settings.preview ==> |PreviewEvents(settings, frames, w, h, n)| == n
    ensures !settings.preview ==> PreviewEvents(settings, frames, w, h, n) == []
    ensures settings.preview && n > 0 ==> PreviewEvents(settings, frames, w, h, n)[0] == Show(FrameOut(settings, frames, w, h, 0))
    ensures settings.preview ==> forall k :: 1 <= k < n ==>
      PreviewEvents(settings, frames, w, h, n)[k] == Update(FrameOut(settings, frames, w, h, k))
  {
    if n > 1 && settings.preview {
      PreviewShowsOnceThenUpdates(settings, frames, w, h, n - 1);
    }
  }

  /** The shipped settings process the first 200 frames, or fewer when the video is shorter. */
  lemma DefaultsProcessAtMost200(count: nat)
    ensures Processed(Defaults, count) == if count <= 200 then count else 200
  {
  }

  lemma SnocSteps(settings: Settings, frames: seq<Image>, w: int, h: int, i: nat)
    requires i < |frames|
    ensures WrittenFrames(settings, frames, w, h, i + 1)
      == WrittenFrames(settings, frames, w, h, i) + (if settings.writeVideo then [Fit(frames[i], w, h)] else [])
    ensures SavedFrames(settings, frames, w, h, i + 1) == SavedFrames(settings, frames, w, h, i)
      + (if ShouldSave(settings, i) then [Saved(JpgName(i), FrameOut(settings, frames, w, h, i))] else [])
    ensures PreviewEvents(settings, frames, w, h, i + 1) == PreviewEvents(settings, frames, w, h, i)
      + (if !settings.preview then [] else if i == 0 then [Show(FrameOut(settings, frames, w, h, 0))]
         else [Update(FrameOut(settings, frames, w, h, i))])
  {
  }

  /** The `while i < MAX_FRAMES` loop, from the start of the video. */
  method FrameLoop(settings: Settings, cap: Capture, writer: Writer?<Image>, w: int, h: int)
    returns (saved: seq<Saved>, preview: seq<PreviewEvent>)
    requires cap.isOpen && !cap.released && cap.pos == 0
    requires settings.writeVideo <==> writer != null
    requires writer != null ==> writer.isOpen && !writer.released && writer.written == []
    modifies cap`pos, writer
    ensures writer != null ==> !writer.released
    ensures writer != null ==> writer.written == WrittenFrames(settings, cap.frames, w, h, Processed(settings, |cap.frames|))
    ensures saved == SavedFrames(settings, cap.frames, w, h, Processed(settings, |cap.frames|))
    ensures preview == PreviewEvents(settings, cap.frames, w, h, Processed(settings, |cap.frames|))
  {
    saved, preview := [], [];
    var shown := false;
    var i: nat := 0;
    while i < settings.maxFrames
      invariant cap.pos == i <= |cap.frames| && i <= Processed(settings, |cap.frames|)
      invariant writer != null ==> !writer.released && writer.written == WrittenFrames(settings, cap.frames, w, h, i)
      invariant saved == SavedFrames(settings, cap.frames, w, h, i)
      invariant preview == PreviewEvents(settings, cap.frames, w, h, i)
      invariant shown <==> settings.preview && i > 0
      decreases settings.maxFrames - i
    {
      var ok, frame := cap.Read();
      if !ok {
        break;
      }
      SnocSteps(settings, cap.frames, w, h, i);
      if writer != null {
        if frame.width != w || frame.height != h {
          frame := Image(frame.id, w, h);
        }
        writer.Write(frame);
      }
      if settings.saveJpgEvery != 0 && settings.saveJpgEvery > 0 && i % settings.saveJpgEvery == 0 {
        saved := saved + [Saved(JpgName(i), frame)];
      }
      if settings.preview {
        if !shown {
          preview := preview + [Show(frame)];
          shown := true;
        } else {
          preview := preview + [Update(frame)];
        }
      }
      i := i + 1;
    }
  }

  /** Opens the writer: mp4v first, avc1 when that fails; `null` when no video is written. */
  method OpenWriter(settings: Settings, opens: Codec -> bool, fps: real, w: int, h: int)
    returns (writer: Writer?<Image>, codec: Option<Codec>)
    ensures !settings.writeVideo ==> writer == null && codec == None
    ensures settings.writeVideo ==> writer != null && fresh(writer) && writer.written == [] && !writer.released
    ensures settings.writeVideo ==> codec == ChooseCodec(opens) && (writer.isOpen <==> codec.Some?)
    ensures writer != null ==> writer.fps == fps && writer.width == w && writer.height == h
  {
    if !settings.writeVideo {
      return null, None;
    }
    writer := new Writer(opens(Mp4v), fps, w, h);
    codec := Some(Mp4v);
    if !writer.isOpen {
      writer := new Writer(opens(Avc1), fps, w, h);
      codec := if writer.isOpen then Some(Avc1) else None;
    }
  }

  /** The output size: the reported one, or the first frame's when either reported side is not positive. */
  method OutputSize(cap: Capture) returns (size: Option<(int, int)>)
    requires cap.isOpen && !cap.released && cap.pos == 0
    modifies cap`pos
    ensures cap.pos == 0
    ensures cap.width > 0 && cap.height > 0 ==> size == Some((cap.width, cap.height))
    ensures !(cap.width > 0 && cap.height > 0) && |cap.frames| == 0 ==> size == None
    ensures !(cap.width > 0 && cap.height > 0) && |cap.frames| > 0 ==>
      size == Some((cap.frames[0].width, cap.frames[0].height))
  {
    if cap.width <= 0 || cap.height <= 0 {
      var ok, frame := cap.Read();
      if !ok {
        return None;
      }
      cap.Rewind();
      return Some((frame.width, frame.height));
    }
    return Some((cap.width, cap.height));
  }

  /** `main`: the checks, the size and writer fallbacks, then the loop. */
  method RunOpenposeTest(settings: Settings, videoExists: bool, cap: Capture, opens: Codec -> bool)
    returns (r: Result<Run, OpenposeError>, size: Option<(int, int)>)
    requires cap.pos == 0 && !cap.released
    modifies cap
    ensures !videoExists ==> r == Failure(VideoNotFound)
    ensures videoExists && !cap.isOpen ==> r == Failure(CannotOpen)
    ensures videoExists && cap.isOpen && size.None? ==> r == Failure(NoFirstFrame) && !cap.released
    ensures videoExists && cap.isOpen && cap.width > 0 && cap.height > 0 ==> size == Some((cap.width, cap.height))
    ensures videoExists && cap.isOpen && !(cap.width > 0 && cap.height > 0) ==>
      size == if |cap.frames| == 0 then None else Some((cap.frames[0].width, cap.frames[0].height))
    ensures r == Failure(WriterFailed) ==>
      settings.writeVideo && ChooseCodec(opens).None? && cap.released
    ensures videoExists && cap.isOpen && size.Some? && settings.writeVideo && ChooseCodec(opens).None? ==>
      r == Failure(WriterFailed) && cap.released
    ensures r.Success? ==>
      videoExists && cap.isOpen && size.Some? && cap.released &&
      var n := Processed(settings, |cap.frames|);
      var (w, h) := size.value;
      && r.value.codec == (if settings.writeVideo then ChooseCodec(opens) else None)
      && r.value.writerFps == (if settings.writeVideo then Some(SafeFps(cap.fps, FallbackFps)) else None)
      && r.value.written == (if settings.writeVideo then WrittenFrames(settings, cap.frames, w, h, n) else [])
      && r.value.saved == SavedFrames(settings, cap.frames, w, h, n)
      && r.value.preview == PreviewEvents(settings, cap.frames, w, h, n)
    ensures videoExists && cap.isOpen && size.Some? && (!settings.writeVideo || ChooseCodec(opens).Some?) ==> r.Success?
  {
    size := None;
    if !videoExists {
      return Failure(VideoNotFound), size;
    }
    if !cap.isOpen {
      return Failure(CannotOpen), size;
    }
    var fps := SafeFps(cap.fps, FallbackFps);
    size := OutputSize(cap);
    if size.None? {
      return Failure(NoFirstFrame), size;
    }
    var (w, h) := size.value;
    var writer, codec := OpenWriter(settings, opens, fps, w, h);
    if writer != null && !writer.isOpen {
      cap.Release();
      return Failure(WriterFailed), size;
    }
    var saved, preview := FrameLoop(settings, cap, writer, w, h);
    cap.Release();
    var written, writerFps := [], None;
    if writer != null {
      writer.Release();
      written, writerFps := writer.written, Some(writer.fps);
    }
    return Success(Run(written, saved, preview, codec, writerFps)), size;
  }
}
