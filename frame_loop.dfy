/**
 * Frame-loop rules the two MediaPipe scripts share
 * (backend/scripts/test_mediapipe_example.py and backend/scripts/test_mediapipe.py):
 * the frame counter starts at 1 on the first frame read, inference runs on
 * every `every_n`-th frame, the reported frame rate falls back to 30, and with
 * a preview window the loop stops after the frame on which ESC is seen.
 */
module FrameLoop {
  import opened Wrappers

  const FallbackFps: real := 30.0

  /** `every_n <= 1 or frame_idx % every_n == 0` (the modulo is only reached with `every_n >= 2`). */
  predicate ShouldInfer(frameIdx: nat, everyN: int) {
    everyN <= 1 || frameIdx % everyN == 0
  }

  /** `if not fps or fps <= 0: fps = 30.0`: a missing, zero or negative rate becomes 30. */
  function FpsOrDefault(fps: Option<real>): (r: real)
    ensures r > 0.0
    ensures fps.Some? && fps.value > 0.0 ==> r == fps.value
    ensures fps.None? || fps.value <= 0.0 ==> r == FallbackFps
  {
    if fps.None? || fps.value == 0.0 || fps.value <= 0.0 then FallbackFps else fps.value
  }

  /** How many of the frames 1..n run inference. */
  function InferCount(n: nat, everyN: int): nat {
    if n == 0 then 0 else InferCount(n - 1, everyN) + (if ShouldInfer(n, everyN) then 1 else 0)
  }

  /** A non-zero multiple of a positive `e` is at least `e` away from 0. */
  lemma MultipleAwayFromZero(a: int, e: int)
    requires e > 0
    ensures a >= 1 ==> a * e >= e
    ensures a <= -1 ==> a * e <= -e
  {
    if a >= 1 {
      assert a * e == (a - 1) * e + e;
    } else if a <= -1 {
      assert a * e == (a + 1) * e - e;
    }
  }

  /** Quotient and remainder are the only pair that rebuilds `n` with a remainder below `e`. */
  lemma DivModUnique(n: int, e: int, q: int, r: int)
    requires e > 0 && 0 <= r < e && n == q * e + r
    ensures n / e == q && n % e == r
  {
    var q2, r2 := n / e, n % e;
    assert n == q2 * e + r2 && 0 <= r2 < e;
    assert (q - q2) * e == r2 - r;
    MultipleAwayFromZero(q - q2, e);
  }

  lemma DivStep(n: nat, e: nat)
    requires n >= 1 && e >= 1
    ensures n / e == (n - 1) / e + (if n % e == 0 then 1 else 0)
  {
    var q, r := (n - 1) / e, (n - 1) % e;
    if r == e - 1 {
      DivModUnique(n, e, q + 1, 0);
    } else {
      DivModUnique(n, e, q, r + 1);
    }
  }

  /** With `every_n >= 2`, inference runs on floor(n / every_n) of the first n frames; otherwise on all of them. */
  lemma {:induction false} InferCountIsQuotient(n: nat, everyN: int)
    ensures everyN >= 1 ==> InferCount(n, everyN) == n / everyN
    ensures everyN <= 1 ==> InferCount(n, everyN) == n
  {
    if n > 0 {
      InferCountIsQuotient(n - 1, everyN);
      if everyN >= 1 {
        DivStep(n, everyN);
      }
    }
  }

  /** The first frame always runs inference only when `every_n <= 1`; with `every_n >= 2` the first is frame `every_n`. */
  lemma FirstInference(everyN: int)
    ensures everyN <= 1 ==> ShouldInfer(1, everyN)
    ensures everyN >= 2 ==> ShouldInfer(everyN as nat, everyN)
    ensures everyN >= 2 ==> forall k: nat :: 1 <= k < everyN ==> !ShouldInfer(k, everyN)
  {
  }

  /** With a preview window, ESC after frame k stops the loop. */
  predicate StopsAfter(k: nat, display: bool, escAfter: nat -> bool) {
    display && escAfter(k)
  }

  /**
   * The number of frames a loop processes when it may process frames `k..limit`,
   * having already passed frames below `k`: it stops at the first frame after
   * which ESC is seen, or after frame `limit`.
   */
  function ProcessedFrom(k: nat, limit: nat, display: bool, escAfter: nat -> bool): (n: nat)
    requires k >= 1
    ensures n <= limit
    ensures k <= limit + 1 ==> k - 1 <= n
    decreases limit + 1 - k
  {
    if k > limit then limit
    else if StopsAfter(k, display, escAfter) then k
    else ProcessedFrom(k + 1, limit, display, escAfter)
  }

  /** Frames from `k` to `m` without ESC do not change where the loop stops. */
  lemma {:induction false} ProcessedFromSkip(k: nat, m: nat, limit: nat, display: bool, escAfter: nat -> bool)
    requires 1 <= k <= m <= limit + 1
    requires forall j :: k <= j < m ==> !StopsAfter(j, display, escAfter)
    ensures ProcessedFrom(k, limit, display, escAfter) == ProcessedFrom(m, limit, display, escAfter)
    decreases m - k
  {
    if k < m {
      ProcessedFromSkip(k + 1, m, limit, display, escAfter);
    }
  }

  /** A loop that stopped after frame `n`, by ESC or by running out of frames, processed `n` frames. */
  lemma ProcessedAtExit(n: nat, limit: nat, display: bool, escAfter: nat -> bool)
    requires n <= limit
    requires forall j :: 1 <= j < n ==> !StopsAfter(j, display, escAfter)
    requires n == limit || (n >= 1 && StopsAfter(n, display, escAfter))
    ensures ProcessedFrom(1, limit, display, escAfter) == n
  {
    if n >= 1 && StopsAfter(n, display, escAfter) {
      ProcessedFromSkip(1, n, limit, display, escAfter);
    } else {
      ProcessedFromSkip(1, n + 1, limit, display, escAfter);
    }
  }

  /** The loop processes a prefix of the frames that ends at the first ESC, or covers them all. */
  lemma {:induction false} ProcessedFromMeaning(limit: nat, display: bool, escAfter: nat -> bool)
    ensures ProcessedFrom(1, limit, display, escAfter) <= limit
    ensures forall j :: 1 <= j < ProcessedFrom(1, limit, display, escAfter) ==> !StopsAfter(j, display, escAfter)
    ensures ProcessedFrom(1, limit, display, escAfter) < limit ==>
      StopsAfter(ProcessedFrom(1, limit, display, escAfter), display, escAfter)
    ensures !display ==> ProcessedFrom(1, limit, display, escAfter) == limit
    ensures limit >= 1 ==> ProcessedFrom(1, limit, display, escAfter) >= 1
  {
    var n := ProcessedFrom(1, limit, display, escAfter);
    var k := 1;
    while k <= limit && !StopsAfter(k, display, escAfter)
      invariant 1 <= k <= limit + 1
      invariant forall j :: 1 <= j < k ==> !StopsAfter(j, display, escAfter)
      invariant ProcessedFrom(1, limit, display, escAfter) == ProcessedFrom(k, limit, display, escAfter)
      decreases limit + 1 - k
    {
      k := k + 1;
    }
  }
}
