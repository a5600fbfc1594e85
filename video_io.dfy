/**
 * The OpenCV objects the backend scripts drive, reduced to what their loops
 * observe: a capture is a fixed list of decoded frames read front to back,
 * and a writer is the list of frames it has been given.
 */
module VideoIo {
  import opened Wrappers

  /** A decoded frame: an identity standing for its pixels, and its size. */
  datatype Image = Image(id: nat, width: int, height: int)

  /** `cv2.VideoCapture`: the frames of the file, the properties it reports and its read position. */
  class Capture {
    const frames: seq<Image>
    const isOpen: bool
    /** `CAP_PROP_FPS`, `None` when the backend reports nothing. */
    const fps: Option<real>
    /** `int(CAP_PROP_FRAME_WIDTH)` and `int(CAP_PROP_FRAME_HEIGHT)`. */
    const width: int
    const height: int
    var pos: nat
    var released: bool

    constructor (frames: seq<Image>, isOpen: bool, fps: Option<real>, width: int, height: int)
      ensures this.frames == frames && this.isOpen == isOpen && this.fps == fps
      ensures this.width == width && this.height == height
      ensures pos == 0 && !released
    {
      this.frames := frames;
      this.isOpen := isOpen;
      this.fps := fps;
      this.width := width;
      this.height := height;
      pos := 0;
      released := false;
    }

    /** `cap.read()`: the next frame, or `ok == false` once the frames are exhausted (or the capture is closed). */
    method Read() returns (ok: bool, frame: Image)
      modifies this`pos
      ensures ok <==> isOpen && !released && old(pos) < |frames|
      ensures ok ==> frame == frames[old(pos)] && pos == old(pos) + 1
      ensures !ok ==> pos == old(pos)
    {
      if isOpen && !released && pos < |frames| {
        ok, frame := true, frames[pos];
        pos := pos + 1;
      } else {
        ok, frame := false, Image(0, 0, 0);
      }
    }

    /** `cap.set(CAP_PROP_POS_FRAMES, 0)`. */
    method Rewind()
      modifies this`pos
      ensures pos == 0
    {
      pos := 0;
    }

    method Release()
      modifies this`released
      ensures released
    {
      released := true;
    }
  }

  /** `cv2.VideoWriter`: whether it opened, its settings, and the frames written so far. */
  class Writer<T> {
    const isOpen: bool
    const fps: real
    const width: int
    const height: int
    var written: seq<T>
    var released: bool

    constructor (isOpen: bool, fps: real, width: int, height: int)
      ensures this.isOpen == isOpen && this.fps == fps && this.width == width && this.height == height
      ensures written == [] && !released
    {
      this.isOpen := isOpen;
      this.fps := fps;
      this.width := width;
      this.height := height;
      written := [];
      released := false;
    }

    /** `writer.write(frame)`; a writer that did not open drops the frame. */
    method Write(x: T)
      modifies this`written
      ensures written == old(written) + (if isOpen && !released then [x] else [])
    {
      if isOpen && !released {
        written := written + [x];
      }
    }

    method Release()
      modifies this`released
      ensures released
    {
      released := true;
    }
  }
}
