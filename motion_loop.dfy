/**
 * The two-stage cascade shared by the capture loops of FrontEnd/main_gui.py
 * and main.py: on every fourth processed frame the motion detector runs,
 * the pose model runs only after motion, and a sample with motion or poses
 * replaces the cached contours and poses and stamps the detection time.
 * Every processed frame advances the counter.
 */
module MotionLoop {
  import opened Vision
  import Detection

  /** The loop's memory: the frame counter, the last detection time and the cached lists. */
  datatype Memory = Memory(frames: nat, lastDetection: real, contours: seq<Contour>, poses: seq<Pose>)

  /** The memory before the first frame: counter 0, detection time 0, nothing cached. */
  const Start: Memory := Memory(0, 0.0, [], [])

  /** The detector's stored frame together with the loop's memory. */
  datatype Observed = Observed(previous: Option<Gray>, memory: Memory)

  /** One processed frame, stamped with the time read when a sample is positive. */
  function Sampled(previous: Option<Gray>, memory: Memory, frame: Frame, detected: real, m: Models): Observed
  {
    if memory.frames % 4 == 0 then
      var contours := Detection.MotionOf(previous, m.blur(frame), m);
      var poses := if contours != [] then Detection.AllPoses(m.infer(frame)) else [];
      var kept := if contours != [] || poses != [] then memory.(lastDetection := detected, contours := contours, poses := poses) else memory;
      Observed(Some(m.blur(frame)), kept.(frames := kept.frames + 1))
    else
      Observed(previous, memory.(frames := memory.frames + 1))
  }

  /** Poses are only ever cached together with motion. */
  predicate Gated(memory: Memory)
  {
    memory.poses != [] ==> memory.contours != []
  }

  /** The sampling part of one iteration of either loop, on the loop's detector. */
  method Observe(detector: Detection.Detector, frame: Frame, detected: real, m: Models, memory: Memory) returns (next: Memory)
    modifies detector
    ensures Observed(detector.previous, next) == Sampled(old(detector.previous), memory, frame, detected, m)
  {
    next := memory;
    if memory.frames % 4 == 0 {
      var contours := detector.DetectMotion(frame, m);
      var poses: seq<Pose> := [];
      if contours != [] {
        poses := detector.DetectPoses(frame, m);
      }
      if contours != [] || poses != [] {
        next := next.(lastDetection := detected, contours := contours, poses := poses);
      }
    }
    next := next.(frames := next.frames + 1);
  }

  /**
   * The counter always advances by one. Off the four-frame schedule nothing
   * else changes; on it the detector stores the blurred frame, and the
   * cache and detection time are replaced exactly when motion is found.
   */
  lemma SampleRule(previous: Option<Gray>, memory: Memory, frame: Frame, detected: real, m: Models)
    ensures var o := Sampled(previous, memory, frame, detected, m);
      && o.memory.frames == memory.frames + 1
      && (memory.frames % 4 != 0 ==> o == Observed(previous, memory.(frames := memory.frames + 1)))
      && (memory.frames % 4 == 0 ==> o.previous == Some(m.blur(frame)))
    ensures var o := Sampled(previous, memory, frame, detected, m);
      var contours := Detection.MotionOf(previous, m.blur(frame), m);
      if memory.frames % 4 == 0 && contours != [] then
        o.memory.lastDetection == detected && o.memory.contours == contours
        && o.memory.poses == Detection.AllPoses(m.infer(frame))
      else
        o.memory.lastDetection == memory.lastDetection && o.memory.contours == memory.contours
        && o.memory.poses == memory.poses
  {
  }

  /** The gating holds of the cache after every frame. */
  lemma GatedKept(previous: Option<Gray>, memory: Memory, frame: Frame, detected: real, m: Models)
    requires Gated(memory)
    ensures Gated(Sampled(previous, memory, frame, detected, m).memory)
  {
  }

  /** The first frame of a fresh detector finds no motion, so it caches nothing. */
  lemma FirstFrameCachesNothing(memory: Memory, frame: Frame, detected: real, m: Models)
    ensures Sampled(None, memory, frame, detected, m).memory == memory.(frames := memory.frames + 1)
  {
  }
}
