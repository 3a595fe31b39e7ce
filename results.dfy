/** Outlier counting of results.py: how many camera frames lack a hand, and
    how many of those the hand-tracking sensor missed as well. */
module Results {
  import opened Frames

  /** Indices `i < |camera|` at which both the camera frame and the sensor
      frame are all-zero; sensor indices past the end count as not missing. */
  function BothMissing(camera: seq<Frame>, sensor: seq<Frame>): (k: nat)
    ensures k <= |camera|
  {
    if camera == [] then 0
    else
      var last := |camera| - 1;
      BothMissing(camera[..last], sensor)
        + (if AllZero(camera[last]) && last < |sensor| && AllZero(sensor[last]) then 1 else 0)
  }

  /** Where a scan that starts at index `i` ends: just past the first all-zero
      camera frame at an index the sensor sequence does not have, or at the end
      of the camera sequence when there is no such frame. */
  function ScanFrom(camera: seq<Frame>, sensor: seq<Frame>, i: nat): (end: nat)
    requires i <= |camera|
    ensures i <= end <= |camera|
    ensures forall j :: i <= j < end - 1 ==> !StopsAt(camera, sensor, j)
    ensures (i < end && StopsAt(camera, sensor, end - 1))
         || (end == |camera| && forall j :: i <= j < |camera| ==> !StopsAt(camera, sensor, j))
    decreases |camera| - i
  {
    if i == |camera| then i
    else if AllZero(camera[i]) && i >= |sensor| then i + 1
    else ScanFrom(camera, sensor, i + 1)
  }

  /** Camera frame `j` is all-zero and has no sensor frame: looking it up raises `IndexError`. */
  predicate StopsAt(camera: seq<Frame>, sensor: seq<Frame>, j: nat)
    requires j < |camera|
  {
    AllZero(camera[j]) && j >= |sensor|
  }

  /** The number of camera frames `count_outliers` looks at. */
  function ScanEnd(camera: seq<Frame>, sensor: seq<Frame>): (end: nat)
    ensures end <= |camera|
  {
    ScanFrom(camera, sensor, 0)
  }

  /** `count_outliers(frames_MP, frames_UL)`: counts the all-zero camera frames
      in index order and, among them, those whose sensor frame is all-zero too;
      the first all-zero camera frame without a sensor frame is still counted in
      the first total, and then the scan stops (the `IndexError` branch). */
  method CountOutliers(framesMP: seq<Frame>, framesUL: seq<Frame>) returns (mpOutliers: nat, mpulOutliers: nat)
    ensures var end := ScanEnd(framesMP, framesUL);
      mpOutliers == AllZeroCount(framesMP[..end]) && mpulOutliers == BothMissing(framesMP[..end], framesUL)
    ensures mpulOutliers <= mpOutliers <= |framesMP|
    ensures |framesUL| >= |framesMP| ==> mpOutliers == AllZeroCount(framesMP)
  {
    mpOutliers, mpulOutliers := 0, 0;
    for i := 0 to |framesMP|
      invariant mpOutliers == AllZeroCount(framesMP[..i])
      invariant mpulOutliers == BothMissing(framesMP[..i], framesUL)
      invariant ScanFrom(framesMP, framesUL, i) == ScanEnd(framesMP, framesUL)
    {
      assert framesMP[..i + 1][..i] == framesMP[..i];
      if AllZero(framesMP[i]) {
        mpOutliers := mpOutliers + 1;
        if i >= |framesUL| {
          break;
        }
        if AllZero(framesUL[i]) {
          mpulOutliers := mpulOutliers + 1;
        }
      }
    }
    var end := ScanEnd(framesMP, framesUL);
    MissingBothAtMostMissingCamera(framesMP[..end], framesUL);
    if |framesUL| >= |framesMP| {
      NoEarlyStop(framesMP, framesUL);
      assert framesMP[..|framesMP|] == framesMP;
    }
  }

  /** A frame the sensor also missed is a frame the camera missed. */
  lemma {:induction false} MissingBothAtMostMissingCamera(camera: seq<Frame>, sensor: seq<Frame>)
    ensures BothMissing(camera, sensor) <= AllZeroCount(camera)
  {
    if camera != [] {
      MissingBothAtMostMissingCamera(camera[..|camera| - 1], sensor);
    }
  }

  /** With a sensor sequence at least as long as the camera sequence the scan
      never stops early. */
  lemma NoEarlyStop(camera: seq<Frame>, sensor: seq<Frame>)
    requires |sensor| >= |camera|
    ensures ScanEnd(camera, sensor) == |camera|
  {
  }

  /** The early stop: when index `j` is the first all-zero camera frame the
      sensor sequence does not reach, frame `j` is the last frame looked at;
      it adds to the camera total and not to the joint total. */
  lemma EarlyStop(camera: seq<Frame>, sensor: seq<Frame>, j: nat)
    requires j < |camera| && j >= |sensor| && AllZero(camera[j])
    requires forall i :: |sensor| <= i < j ==> !AllZero(camera[i])
    ensures ScanEnd(camera, sensor) == j + 1
    ensures AllZeroCount(camera[..j + 1]) == AllZeroCount(camera[..j]) + 1
    ensures BothMissing(camera[..j + 1], sensor) == BothMissing(camera[..j], sensor)
  {
    assert StopsAt(camera, sensor, j);
    assert camera[..j + 1][..j] == camera[..j];
  }

  /** Two sensor sequences that agree, at every index where the camera frame
      is all-zero, on whether a frame exists there and whether it is all-zero,
      give the same scan. */
  lemma {:induction false} ScanIgnoresSensorElsewhere(camera: seq<Frame>, sensor: seq<Frame>, sensor': seq<Frame>, i: nat)
    requires i <= |camera|
    requires SameWhereCameraMissing(camera, sensor, sensor')
    ensures ScanFrom(camera, sensor, i) == ScanFrom(camera, sensor', i)
    decreases |camera| - i
  {
    if i < |camera| {
      ScanIgnoresSensorElsewhere(camera, sensor, sensor', i + 1);
    }
  }

  /** See `ScanIgnoresSensorElsewhere`; the same holds of the joint count over any prefix. */
  lemma {:induction false} BothMissingIgnoresSensorElsewhere(camera: seq<Frame>, sensor: seq<Frame>, sensor': seq<Frame>, n: nat)
    requires n <= |camera|
    requires SameWhereCameraMissing(camera, sensor, sensor')
    ensures BothMissing(camera[..n], sensor) == BothMissing(camera[..n], sensor')
  {
    if n > 0 {
      BothMissingIgnoresSensorElsewhere(camera, sensor, sensor', n - 1);
      assert camera[..n][..n - 1] == camera[..n - 1];
    }
  }

  /** The sensor sequences agree wherever `count_outliers` could look at them. */
  predicate SameWhereCameraMissing(camera: seq<Frame>, sensor: seq<Frame>, sensor': seq<Frame>) {
    forall i :: 0 <= i < |camera| && AllZero(camera[i]) ==>
      (i < |sensor| <==> i < |sensor'|) && (i < |sensor| && i < |sensor'| ==> (AllZero(sensor[i]) <==> AllZero(sensor'[i])))
  }

  /** Sensor frames are read only at indices whose camera frame is all-zero:
      changing the sensor sequence anywhere else leaves both totals unchanged. */
  lemma CountsIgnoreSensorElsewhere(camera: seq<Frame>, sensor: seq<Frame>, sensor': seq<Frame>)
    requires SameWhereCameraMissing(camera, sensor, sensor')
    ensures ScanEnd(camera, sensor) == ScanEnd(camera, sensor')
    ensures BothMissing(camera[..ScanEnd(camera, sensor)], sensor) == BothMissing(camera[..ScanEnd(camera, sensor')], sensor')
  {
    ScanIgnoresSensorElsewhere(camera, sensor, sensor', 0);
    BothMissingIgnoresSensorElsewhere(camera, sensor, sensor', ScanEnd(camera, sensor));
  }
}
