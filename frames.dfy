/** Landmark frames: one hand's 21 keypoints, 3 coordinates each, at one instant.
    A hand that was not detected is recorded as a frame of exact zeros. */
module Frames {

  type Frame = seq<real>

  /** Values per frame: 21 keypoints times 3 coordinates. */
  const FrameSize: nat := 63

  /** The sentinel for an undetected hand: `FrameSize` exact zeros. */
  function ZeroFrame(): (z: Frame)
    ensures |z| == FrameSize && AllZero(z)
  {
    seq(FrameSize, k => 0.0)
  }

  /** Every component of `f` is exactly zero; this is what a numpy comparison
      of a frame of any length with the one-element list `[0]` followed by
      `.all()` decides. */
  predicate AllZero(f: Frame) {
    forall k :: 0 <= k < |f| ==> f[k] == 0.0
  }

  /** How many frames equal the sentinel exactly, as Python's `list.count`
      with a list of 63 zeros counts them. */
  function AbsentCount(frames: seq<Frame>): (k: nat)
    ensures k <= |frames|
    ensures k == 0 <==> ZeroFrame() !in frames
    ensures k == |frames| <==> forall i :: 0 <= i < |frames| ==> frames[i] == ZeroFrame()
  {
    if frames == [] then 0
    else
      AbsentCount(frames[..|frames| - 1]) + (if frames[|frames| - 1] == ZeroFrame() then 1 else 0)
  }

  /** How many frames are all-zero in the sense of `AllZero`. */
  function AllZeroCount(frames: seq<Frame>): (k: nat)
    ensures k <= |frames|
    ensures k == 0 <==> forall i :: 0 <= i < |frames| ==> !AllZero(frames[i])
  {
    if frames == [] then 0
    else
      AllZeroCount(frames[..|frames| - 1]) + (if AllZero(frames[|frames| - 1]) then 1 else 0)
  }

  /** For a frame of the proper size the two notions of "absent hand" coincide. */
  lemma SentinelIsAllZero(f: Frame)
    requires |f| == FrameSize
    ensures f == ZeroFrame() <==> AllZero(f)
  {
    if AllZero(f) {
      assert forall k :: 0 <= k < FrameSize ==> f[k] == ZeroFrame()[k];
    }
  }

  /** Over frames of the proper size, `list.count` of the sentinel and the
      numpy all-zero count agree. */
  lemma {:induction false} CountsAgree(frames: seq<Frame>)
    requires forall i :: 0 <= i < |frames| ==> |frames[i]| == FrameSize
    ensures AbsentCount(frames) == AllZeroCount(frames)
  {
    if frames != [] {
      var init := frames[..|frames| - 1];
      CountsAgree(init);
      SentinelIsAllZero(frames[|frames| - 1]);
    }
  }

  /** Appending one frame adds one to the absent count exactly when the frame is the sentinel. */
  lemma AbsentCountAppend(frames: seq<Frame>, f: Frame)
    ensures AbsentCount(frames + [f]) == AbsentCount(frames) + (if f == ZeroFrame() then 1 else 0)
  {
    assert (frames + [f])[..|frames|] == frames;
  }
}
