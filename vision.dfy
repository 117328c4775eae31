/**
 * Value types shared by the detectors, the face recognizer, the recorders
 * and the three capture loops. Pixels are never inspected: a frame is an
 * opaque handle with a size, and every OpenCV, YOLO or face_recognition
 * computation the system relies on is one of the total functions bundled
 * in `Models`.
 */
module Vision {

  datatype Option<T> = None | Some(value: T)

  /** A decoded colour frame: `content` stands for its pixels. */
  datatype Frame = Frame(content: nat, width: nat, height: nat)

  /** `cv2.resize(frame, (width, height))`: same picture, new size. */
  function Resize(f: Frame, width: nat, height: nat): Frame
  {
    f.(width := width, height := height)
  }

  /** A grayscale, Gaussian-blurred image, as the motion detector stores it. */
  datatype Gray = Gray(content: nat)

  /** An external contour found by `cv2.findContours`, with its enclosed area. */
  datatype Contour = Contour(id: nat, area: int)

  /** A pose keypoint and one person's keypoint list. */
  datatype Point = Point(x: real, y: real)
  type Pose = seq<Point>

  /** One result of the pose model's stream: the keypoint lists it carries, if any. */
  datatype InferenceResult = InferenceResult(keypoints: Option<seq<Pose>>)

  /** A face box in (top, right, bottom, left) order. */
  datatype Box = Box(top: int, right: int, bottom: int, left: int)

  /** A face encoding computed by face_recognition (128 floats in the original). */
  datatype Encoding = Encoding(id: nat)

  /**
   * The external computations, as functions of their inputs:
   * blur      cvtColor to gray followed by a 21x21 GaussianBlur;
   * diff      absdiff against the previous blurred frame, threshold at 25,
   *           two dilations and findContours (external contours);
   * infer     the YOLOv8 pose model's result stream on a frame;
   * locate    face_locations on the frame scaled by 0.25 and turned to RGB;
   * encode    face_encodings of one such location;
   * compare   compare_faces(known, encoding, tolerance=0.6).
   */
  datatype Models = Models(
    blur: Frame -> Gray,
    diff: (Gray, Gray) -> seq<Contour>,
    infer: Frame -> seq<InferenceResult>,
    locate: Frame -> seq<Box>,
    encode: (Frame, Box) -> Encoding,
    compare: (seq<Encoding>, Encoding) -> seq<bool>)

  /** compare_faces answers one boolean per known encoding. */
  ghost predicate WellFormed(m: Models)
  {
    forall known, e :: |m.compare(known, e)| == |known|
  }

  /** The persistence window of all three capture loops, in seconds. */
  const Persistence: real := 10.0

  /** `now - lastDetection < persistencia`. */
  predicate Persisting(now: real, lastDetection: real)
  {
    now - lastDetection < Persistence
  }

  predicate StartsWith(s: string, prefix: string)
  {
    |prefix| <= |s| && s[..|prefix|] == prefix
  }

  predicate EndsWith(s: string, suffix: string)
  {
    |suffix| <= |s| && s[|s| - |suffix|..] == suffix
  }

  /** `os.path.join(directory, name)` on a POSIX system, for a relative name. */
  function Join(directory: string, name: string): string
  {
    directory + "/" + name
  }

  /** An open cv2.VideoWriter: its file, frame rate and frame size. */
  datatype Writer = Writer(path: string, fps: real, width: nat, height: nat)

  /** What a recorder asks of OpenCV, in order. */
  datatype Effect = Opened(writer: Writer) | Wrote(writer: Writer, frame: Frame) | Released(writer: Writer)

  /** The number of writers a log opens. */
  function CountOpened(effects: seq<Effect>): nat
  {
    if effects == [] then 0 else (if effects[0].Opened? then 1 else 0) + CountOpened(effects[1..])
  }

  /** The number of writers a log releases. */
  function CountReleased(effects: seq<Effect>): nat
  {
    if effects == [] then 0 else (if effects[0].Released? then 1 else 0) + CountReleased(effects[1..])
  }

  lemma {:induction false} CountsAppend(a: seq<Effect>, b: seq<Effect>)
    ensures CountOpened(a + b) == CountOpened(a) + CountOpened(b)
    ensures CountReleased(a + b) == CountReleased(a) + CountReleased(b)
  {
    if a != [] {
      CountsAppend(a[1..], b);
      assert (a + b)[1..] == a[1..] + b;
    } else {
      assert a + b == b;
    }
  }
}
