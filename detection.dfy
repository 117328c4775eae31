/**
 * The motion and pose detector of backend/detector.py: a frame-differencing
 * motion detector that keeps the previous blurred frame, an area filter on
 * the contours it finds, and the flattening of the pose model's results
 * into one list of keypoint lists.
 */
module Detection {
  import opened Vision

  /** Contours enclosing less than this many square pixels are dropped. */
  const MinArea: int := 1000

  /** The contours of `found` with area at least MinArea, in their order. */
  function LargeContours(found: seq<Contour>): seq<Contour>
  {
    if found == [] then []
    else if found[|found| - 1].area < MinArea then LargeContours(found[..|found| - 1])
    else LargeContours(found[..|found| - 1]) + [found[|found| - 1]]
  }

  /** What one call of the detector returns, given the stored previous frame. */
  function MotionOf(previous: Option<Gray>, current: Gray, m: Models): seq<Contour>
  {
    match previous
    case None => []
    case Some(p) => LargeContours(m.diff(p, current))
  }

  /** The keypoint lists one result contributes: none when it has none. */
  function PersonsOf(r: InferenceResult): seq<Pose>
  {
    if r.keypoints.Some? && |r.keypoints.value| > 0 then r.keypoints.value else []
  }

  /** The in-order concatenation of every result's per-person keypoint lists. */
  function AllPoses(results: seq<InferenceResult>): seq<Pose>
  {
    if results == [] then []
    else AllPoses(results[..|results| - 1]) + PersonsOf(results[|results| - 1])
  }

  /** The filtering loop of detectar_movimento. */
  method FilterContours(found: seq<Contour>) returns (filtered: seq<Contour>)
    ensures filtered == LargeContours(found)
  {
    filtered := [];
    var i := 0;
    while i < |found|
      invariant 0 <= i <= |found|
      invariant filtered == LargeContours(found[..i])
    {
      assert found[..i + 1][..i] == found[..i];
      if found[i].area < MinArea {
        i := i + 1;
        continue;
      }
      filtered := filtered + [found[i]];
      i := i + 1;
    }
    assert found[..i] == found;
  }

  class Detector {
    /** `frame_anterior`: the blurred frame of the previous call, if any. */
    var previous: Option<Gray>

    constructor ()
      ensures previous == None
    {
      previous := None;
    }

    /**
     * detectar_movimento: the first call only stores the blurred frame and
     * returns no contour; later calls compare against the stored frame.
     * Either way the current blurred frame is stored.
     */
    method DetectMotion(frame: Frame, m: Models) returns (contours: seq<Contour>)
      modifies this
      ensures previous == Some(m.blur(frame))
      ensures contours == MotionOf(old(previous), m.blur(frame), m)
      ensures old(previous) == None ==> contours == []
    {
      var gray := m.blur(frame);
      if previous == None {
        previous := Some(gray);
        return [];
      }
      var delta := m.diff(previous.value, gray);
      previous := Some(gray);
      contours := FilterContours(delta);
    }

    /** detectar_poses: the nested loop over results and persons. */
    method DetectPoses(frame: Frame, m: Models) returns (poses: seq<Pose>)
      ensures poses == AllPoses(m.infer(frame))
    {
      var results := m.infer(frame);
      poses := [];
      var i := 0;
      while i < |results|
        invariant 0 <= i <= |results|
        invariant poses == AllPoses(results[..i])
      {
        assert results[..i + 1][..i] == results[..i];
        var r := results[i];
        if r.keypoints.Some? && |r.keypoints.value| > 0 {
          var persons := r.keypoints.value;
          var j := 0;
          while j < |persons|
            invariant 0 <= j <= |persons|
            invariant poses == AllPoses(results[..i]) + persons[..j]
          {
            poses := poses + [persons[j]];
            j := j + 1;
          }
          assert persons[..j] == persons;
        }
        i := i + 1;
      }
      assert results[..i] == results;
    }
  }

  /** No returned contour is below the area threshold. */
  lemma {:induction false} LargeContoursAreLarge(found: seq<Contour>)
    ensures forall k :: 0 <= k < |LargeContours(found)| ==> LargeContours(found)[k].area >= MinArea
  {
    if found != [] {
      LargeContoursAreLarge(found[..|found| - 1]);
    }
  }

  /** The filter neither adds nor drops a large contour: multiplicities are kept. */
  lemma {:induction false} LargeContoursCount(found: seq<Contour>, c: Contour)
    ensures multiset(LargeContours(found))[c] == if c.area >= MinArea then multiset(found)[c] else 0
  {
    if found != [] {
      var init := found[..|found| - 1];
      LargeContoursCount(init, c);
      assert found == init + [found[|found| - 1]];
    }
  }

  /** A contour is returned exactly when it was found and is large enough. */
  lemma LargeContoursMembers(found: seq<Contour>, c: Contour)
    ensures c in LargeContours(found) <==> c in found && c.area >= MinArea
  {
    LargeContoursCount(found, c);
    assert c in LargeContours(found) <==> multiset(LargeContours(found))[c] > 0;
    assert c in found <==> multiset(found)[c] > 0;
  }

  /** The filter keeps the original order: it distributes over concatenation. */
  lemma {:induction false} LargeContoursAppend(a: seq<Contour>, b: seq<Contour>)
    ensures LargeContours(a + b) == LargeContours(a) + LargeContours(b)
  {
    if b == [] {
      assert a + b == a;
    } else {
      var init := b[..|b| - 1];
      LargeContoursAppend(a, init);
      assert (a + b)[..|a + b| - 1] == a + init;
      assert (a + b)[|a + b| - 1] == b[|b| - 1];
    }
  }

  /** Whatever the stored state, the detector never reports a small contour. */
  lemma MotionIsLarge(previous: Option<Gray>, current: Gray, m: Models)
    ensures forall k :: 0 <= k < |MotionOf(previous, current, m)| ==> MotionOf(previous, current, m)[k].area >= MinArea
  {
    if previous.Some? {
      LargeContoursAreLarge(m.diff(previous.value, current));
    }
  }

  /** The pose list is the concatenation of the parts: results are kept in order. */
  lemma {:induction false} AllPosesAppend(a: seq<InferenceResult>, b: seq<InferenceResult>)
    ensures AllPoses(a + b) == AllPoses(a) + AllPoses(b)
  {
    if b == [] {
      assert a + b == a;
    } else {
      var init := b[..|b| - 1];
      AllPosesAppend(a, init);
      assert (a + b)[..|a + b| - 1] == a + init;
      assert (a + b)[|a + b| - 1] == b[|b| - 1];
    }
  }

  /** The pose list is empty exactly when no result carries a keypoint list. */
  lemma {:induction false} AllPosesEmpty(results: seq<InferenceResult>)
    ensures AllPoses(results) == [] <==> forall k :: 0 <= k < |results| ==> PersonsOf(results[k]) == []
  {
    if results != [] {
      var init := results[..|results| - 1];
      AllPosesEmpty(init);
      assert forall k :: 0 <= k < |init| ==> init[k] == results[k];
    }
  }

  /** A pose is reported exactly when some result carries it. */
  lemma {:induction false} AllPosesMembers(results: seq<InferenceResult>, p: Pose)
    ensures p in AllPoses(results) <==> exists k :: 0 <= k < |results| && p in PersonsOf(results[k])
  {
    if results != [] {
      var init := results[..|results| - 1];
      AllPosesMembers(init, p);
      assert forall k :: 0 <= k < |init| ==> init[k] == results[k];
      if p in PersonsOf(results[|results| - 1]) {
        assert p in AllPoses(results);
      }
    }
  }
}
