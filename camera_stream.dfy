/**
 * The per-camera controller of FrontEnd/camera_stream.py. Each successfully
 * read frame is one tick: on every fourth such tick the motion, pose and
 * face detectors run as a cascade, and a positive sample replaces the
 * sticky cache; every tick then judges the cache against the 10-second
 * persistence window, drives the recorder, and fires at most one
 * notification and event per 30 seconds.
 *
 * `Step` and `Replay` below are the specification; `CameraThread.Run` is the
 * loop itself, proved to follow it.
 */
module CameraStream {
  import opened Vision
  import Detection
  import Faces
  import Rec = FrontEndRecorder

  /** Every frame is resized to the processing size first. */
  const Width: nat := 640
  const Height: nat := 360

  /** The minimum spacing, in seconds, between two notifications of one camera. */
  const ThrottleWindow: real := 30.0

  const AlertText: string := "ALERTA: ATIVIDADE SUSPEITA!"
  const MonitorText: string := "MONITORANDO"
  const NoSignalText: string := "ERRO: SEM SINAL"
  const AlertMessage: string := "ALARME! Atividade suspeita detectada."

  /** One cascade result, or the cache of the last positive one: `ultimos_contornos`, `ultimas_poses`, `ultimas_faces`. */
  datatype Sample = Sample(contours: seq<Contour>, poses: seq<Pose>, faces: seq<Faces.FaceMatch>)

  const Empty: Sample := Sample([], [], [])

  /**
   * The four readings of time.time() in one tick: when a positive sample
   * is stamped (line 65), the window test (line 72), the throttle test
   * (line 104) and the new throttle time (line 117).
   */
  datatype Clock = Clock(detected: real, now: real, alertCheck: real, alertStamp: real)

  /**
   * One read of the capture: the frame, or None when `ret` is false or the
   * frame is None; the clock; and, for a recording that starts on this
   * tick, its timestamp text and whether the writer can be created.
   */
  datatype Tick = Tick(read: Option<Frame>, clock: Clock, stamp: string, opens: bool)

  /** The row `Event.create` writes. */
  datatype Event = Event(eventType: string, cameraName: string, imagePath: string, videoPath: Option<string>)

  /**
   * One notification: the screenshot written (path and frame), the message
   * sent with it, the event stored, and the new `last_alert_time`.
   */
  datatype Fire = Fire(screenshot: string, frame: Frame, message: string, event: Event, at: real)

  /** What stays fixed during a run: the camera name, the models and the face gallery. */
  datatype Setup = Setup(name: string, models: Models, names: seq<string>, encodings: seq<Encoding>)

  ghost predicate SetupOk(env: Setup)
  {
    WellFormed(env.models) && |env.names| == |env.encodings|
  }

  /** The loop's local variables: `frames`, `ultima_vez_detectado` and the cache. */
  datatype Loop = Loop(frames: nat, lastDetection: real, cache: Sample)

  const Fresh: Loop := Loop(0, 0.0, Empty)

  /**
   * Everything a tick can change: the detector's stored frame, the loop
   * variables, `last_alert_time`, the recorder, the notifications fired
   * and the status label drawn on each processed frame (the no-signal
   * status, emitted on `statusUpdate` instead, is not one of them).
   */
  datatype World = World(previous: Option<Gray>, loop: Loop, lastAlert: real, recorder: Rec.Session, fires: seq<Fire>, published: seq<string>)

  /** The recorder the thread builds: `Gravador(prefixo_nome=f"{nome_camera}_")`. */
  function RecorderConfig(name: string): Rec.Config
  {
    Rec.Config(Width, Height, name + "_")
  }

  /** The screenshot path of a camera. */
  function ScreenshotPath(name: string): string
  {
    "assets/alerta_" + name + ".png"
  }

  /** Poses only after motion, faces only after poses. */
  predicate Gated(s: Sample)
  {
    (s.faces != [] ==> s.poses != []) && (s.poses != [] ==> s.contours != [])
  }

  predicate Positive(s: Sample)
  {
    s.contours != [] || s.poses != [] || s.faces != []
  }

  /** The cascade on one sampled frame. */
  function Cascade(previous: Option<Gray>, frame: Frame, env: Setup): Sample
    requires SetupOk(env)
  {
    var m := env.models;
    var contours := Detection.MotionOf(previous, m.blur(frame), m);
    var poses := if contours != [] then Detection.AllPoses(m.infer(frame)) else [];
    var faces := if poses != [] then Faces.Recognized(env.names, Faces.Detected(frame, env.encodings, m)) else [];
    Sample(contours, poses, faces)
  }

  /** The sticky cache: a positive sample replaces it, stamped with `time`; otherwise it stays. */
  function Remember(loop: Loop, s: Sample, time: real): Loop
  {
    if Positive(s) then loop.(lastDetection := time, cache := s) else loop
  }

  /** `faces_desconhecidas`. */
  function UnknownFaces(faces: seq<Faces.FaceMatch>): seq<Faces.FaceMatch>
  {
    if faces == [] then []
    else if faces[0].name == Faces.Unknown then [faces[0]] + UnknownFaces(faces[1..])
    else UnknownFaces(faces[1..])
  }

  /** The alert rule on the cache: an unknown face, or motion with no face at all. */
  predicate Suspicious(c: Sample)
  {
    UnknownFaces(c.faces) != [] || (c.contours != [] && c.faces == [])
  }

  predicate Alerting(loop: Loop, now: real)
  {
    Persisting(now, loop.lastDetection) && Suspicious(loop.cache)
  }

  /** The notification of one fire. */
  function FireOf(name: string, frame: Frame, recorder: Rec.Session, at: real): Fire
  {
    var path := ScreenshotPath(name);
    Fire(path, frame, AlertMessage,
         Event(AlertText, name, path, if recorder.recording then Some(recorder.fileName) else None), at)
  }

  /**
   * The first half of a tick (lines 53-70): on every fourth processed frame
   * the cascade runs, the detector stores the blurred frame and a positive
   * sample replaces the cache; then the frame counter advances.
   */
  function Sampled(w: World, frame: Frame, t: Tick, env: Setup): World
    requires SetupOk(env)
  {
    var sampled := w.loop.frames % 4 == 0;
    var previous := if sampled then Some(env.models.blur(frame)) else w.previous;
    var loop := if sampled then Remember(w.loop, Cascade(w.previous, frame, env), t.clock.detected) else w.loop;
    w.(previous := previous, loop := loop.(frames := loop.frames + 1))
  }

  /**
   * The second half of a tick (lines 72-126): the verdict on the cache,
   * the recorder call it implies, and on an alert the throttled notification.
   */
  function Decided(w: World, frame: Frame, t: Tick, name: string): World
  {
    if Alerting(w.loop, t.clock.now) then
      var c := RecorderConfig(name);
      var recorder := Rec.Written(Rec.Started(w.recorder, c, t.stamp, t.opens), c, frame);
      if t.clock.alertCheck - w.lastAlert > ThrottleWindow then
        w.(lastAlert := t.clock.alertStamp, recorder := recorder,
           fires := w.fires + [FireOf(name, frame, recorder, t.clock.alertStamp)], published := w.published + [AlertText])
      else
        w.(recorder := recorder, published := w.published + [AlertText])
    else
      w.(recorder := Rec.Stopped(w.recorder), published := w.published + [MonitorText])
  }

  /** One tick of the loop: a failed read changes nothing. */
  function Step(w: World, t: Tick, env: Setup): World
    requires SetupOk(env)
  {
    if t.read.None? then w
    else
      var frame := Resize(t.read.value, Width, Height);
      Decided(Sampled(w, frame, t, env), frame, t, env.name)
  }

  /** The ticks in order. */
  function Replay(w: World, ticks: seq<Tick>, env: Setup): World
    requires SetupOk(env)
  {
    if ticks == [] then w else Step(Replay(w, ticks[..|ticks| - 1], env), ticks[|ticks| - 1], env)
  }

  class CameraThread {
    const name: string
    const detector: Detection.Detector
    const recorder: Rec.Recorder
    const recognizer: Faces.FaceRecognizer
    /** `last_alert_time`. */
    var lastAlert: real
    /** The notifications and events fired so far. */
    var fires: seq<Fire>

    ghost predicate Valid()
      reads this, recorder, recognizer
    {
      recorder.Valid() && recognizer.Valid() && recorder.Settings() == RecorderConfig(name)
    }

    function Env(m: Models): Setup
      reads this, recognizer
    {
      Setup(name, m, recognizer.names, recognizer.encodings)
    }

    /**
     * `__init__`: a fresh detector, a recorder prefixed by the camera name,
     * a recognizer that loads the gallery (`galleryExists`, `gallery` stand
     * for the directory), and `last_alert_time = 0`.
     */
    constructor (name: string, galleryExists: bool, gallery: seq<Faces.ImageFile>)
      ensures Valid()
      ensures this.name == name && lastAlert == 0.0 && fires == []
      ensures detector.previous == None && recorder.State() == Rec.Idle
      ensures recognizer.Gallery() == if galleryExists then Faces.Entries(gallery) else []
    {
      this.name := name;
      detector := new Detection.Detector();
      recorder := new Rec.Recorder(prefix := name + "_");
      recognizer := new Faces.FaceRecognizer(galleryExists, gallery);
      lastAlert := 0.0;
      fires := [];
    }

    /** The world as the thread's objects and the loop's variables hold it. */
    function View(loop: Loop, published: seq<string>): World
      reads this, detector, recorder
    {
      World(detector.previous, loop, lastAlert, recorder.State(), fires, published)
    }

    /** Lines 53-70 of `run`. */
    method SampleTick(frame: Frame, t: Tick, m: Models, loop: Loop) returns (next: Loop)
      requires Valid() && WellFormed(m)
      modifies detector
      ensures Valid()
      ensures View(next, []) == Sampled(old(View(loop, [])), frame, t, Env(m))
    {
      next := loop;
      if loop.frames % 4 == 0 {
        var contours := detector.DetectMotion(frame, m);
        var poses: seq<Pose> := [];
        var faces: seq<Faces.FaceMatch> := [];
        if contours != [] {
          poses := detector.DetectPoses(frame, m);
        }
        if poses != [] {
          faces := recognizer.Recognize(frame, m);
        }
        if contours != [] || poses != [] || faces != [] {
          next := next.(lastDetection := t.clock.detected, cache := Sample(contours, poses, faces));
        }
      }
      next := next.(frames := next.frames + 1);
    }

    /** Lines 72-126 of `run`. */
    method DecideTick(frame: Frame, t: Tick, loop: Loop, published: seq<string>) returns (next: seq<string>)
      requires Valid()
      modifies this, recorder
      ensures Valid()
      ensures View(loop, next) == Decided(old(View(loop, published)), frame, t, name)
    {
      var persisting := t.clock.now - loop.lastDetection < Persistence;
      if persisting {
        var unknown := UnknownFaces(loop.cache.faces);
        if unknown != [] || (loop.cache.contours != [] && loop.cache.faces == []) {
          recorder.Start(t.stamp, t.opens);
          recorder.WriteFrame(frame);
          if t.clock.alertCheck - lastAlert > ThrottleWindow {
            var path := "assets/alerta_" + name + ".png";
            var video := if recorder.recording then Some(recorder.fileName) else None;
            fires := fires + [Fire(path, frame, AlertMessage, Event(AlertText, name, path, video), t.clock.alertStamp)];
            lastAlert := t.clock.alertStamp;
          }
          next := published + [AlertText];
        } else {
          recorder.Stop();
          next := published + [MonitorText];
        }
      } else {
        recorder.Stop();
        next := published + [MonitorText];
      }
    }

    /**
     * `run`: `captureOpen` is whether the capture opened. `published` are
     * the status labels drawn on the processed frames, and `signalled` what
     * the thread emits on `statusUpdate`. Without a capture the thread
     * signals the no-signal status and returns; either way the `finally`
     * block finalizes the recorder. The loop ends when the ticks do (the
     * `running` flag is cleared).
     */
    method Run(captureOpen: bool, ticks: seq<Tick>, m: Models) returns (published: seq<string>, signalled: seq<string>)
      requires Valid() && WellFormed(m)
      modifies this, detector, recorder
      ensures Valid()
      ensures !captureOpen ==>
        && published == [] && signalled == [NoSignalText] && detector.previous == old(detector.previous)
        && lastAlert == old(lastAlert) && fires == old(fires) && recorder.State() == Rec.Stopped(old(recorder.State()))
      ensures captureOpen ==>
        var w := Replay(old(View(Fresh, [])), ticks, Env(m));
        && signalled == [] && published == w.published && detector.previous == w.previous && lastAlert == w.lastAlert
        && fires == w.fires && recorder.State() == Rec.Stopped(w.recorder)
    {
      if !captureOpen {
        published := [];
        signalled := [NoSignalText];
        recorder.Finalize();
        return;
      }
      ghost var env := Env(m);
      ghost var w0 := View(Fresh, []);
      var loop := Fresh;
      published := [];
      signalled := [];
      var i := 0;
      while i < |ticks|
        invariant 0 <= i <= |ticks|
        invariant Valid() && env == Env(m)
        invariant View(loop, published) == Replay(w0, ticks[..i], env)
      {
        assert ticks[..i + 1][..i] == ticks[..i];
        var t := ticks[i];
        i := i + 1;
        if t.read == None {
          continue;
        }
        var frame := Resize(t.read.value, Width, Height);
        loop := SampleTick(frame, t, m, loop);
        published := DecideTick(frame, t, loop, published);
      }
      assert ticks[..i] == ticks;
      recorder.Finalize();
    }
  }

  /** The number of ticks whose read succeeded. */
  function Reads(ticks: seq<Tick>): nat
  {
    if ticks == [] then 0 else Reads(ticks[..|ticks| - 1]) + (if ticks[|ticks| - 1].read.Some? then 1 else 0)
  }

  /**
   * A failed read changes nothing; the frame counter counts exactly the
   * successful reads, and each of them draws exactly one status label.
   */
  lemma {:induction false} FramesCountReads(w: World, ticks: seq<Tick>, env: Setup)
    requires SetupOk(env)
    ensures Replay(w, ticks, env).loop.frames == w.loop.frames + Reads(ticks)
    ensures |Replay(w, ticks, env).published| == |w.published| + Reads(ticks)
    ensures Reads(ticks) == 0 ==> Replay(w, ticks, env) == w
  {
    if ticks != [] {
      FramesCountReads(w, ticks[..|ticks| - 1], env);
    }
  }

  /**
   * The cascade runs only when the counter is a multiple of 4: on other
   * ticks the detector's stored frame, the cache and the detection time are
   * untouched; on a sampled tick the detector stores the blurred frame.
   */
  lemma SamplingSchedule(w: World, t: Tick, env: Setup)
    requires SetupOk(env) && t.read.Some?
    ensures var w' := Step(w, t, env);
      w.loop.frames % 4 != 0 ==>
        w'.previous == w.previous && w'.loop.cache == w.loop.cache && w'.loop.lastDetection == w.loop.lastDetection
    ensures w.loop.frames % 4 == 0 ==>
      Step(w, t, env).previous == Some(env.models.blur(Resize(t.read.value, Width, Height)))
  {
  }

  /**
   * Poses only after motion and faces only after poses; so a sample is
   * positive exactly when it has motion, and the very first sample (no
   * stored frame yet) is empty.
   */
  lemma CascadeGated(previous: Option<Gray>, frame: Frame, env: Setup)
    requires SetupOk(env)
    ensures Gated(Cascade(previous, frame, env))
    ensures Positive(Cascade(previous, frame, env)) <==> Cascade(previous, frame, env).contours != []
    ensures previous == None ==> Cascade(previous, frame, env) == Empty
  {
    var s := Cascade(previous, frame, env);
    if s.faces != [] {
      assert s.poses != [];
    }
  }

  /** The gating holds of the cache at every tick. */
  lemma {:induction false} GatedKept(w: World, ticks: seq<Tick>, env: Setup)
    requires SetupOk(env) && Gated(w.loop.cache)
    ensures Gated(Replay(w, ticks, env).loop.cache)
  {
    if ticks != [] {
      var before := Replay(w, ticks[..|ticks| - 1], env);
      GatedKept(w, ticks[..|ticks| - 1], env);
      var t := ticks[|ticks| - 1];
      if t.read.Some? {
        CascadeGated(before.previous, Resize(t.read.value, Width, Height), env);
      }
    }
  }

  /**
   * The cache and the detection time are replaced together, by the fresh
   * sample stamped with the tick's time, exactly when a sampled tick finds
   * motion; otherwise both stay.
   */
  lemma CacheRule(w: World, t: Tick, env: Setup)
    requires SetupOk(env) && t.read.Some?
    ensures var frame := Resize(t.read.value, Width, Height);
      var sample := Cascade(w.previous, frame, env);
      var w' := Step(w, t, env);
      if w.loop.frames % 4 == 0 && sample.contours != [] then
        w'.loop.cache == sample && w'.loop.lastDetection == t.clock.detected
      else
        w'.loop.cache == w.loop.cache && w'.loop.lastDetection == w.loop.lastDetection
  {
    CascadeGated(w.previous, Resize(t.read.value, Width, Height), env);
  }

  /** The unknown faces are the faces named "Desconhecido", in order. */
  lemma {:induction false} UnknownFacesMembers(faces: seq<Faces.FaceMatch>, f: Faces.FaceMatch)
    ensures f in UnknownFaces(faces) <==> f in faces && f.name == Faces.Unknown
    ensures UnknownFaces(faces) == [] <==> forall k :: 0 <= k < |faces| ==> faces[k].name != Faces.Unknown
  {
    if faces != [] {
      UnknownFacesMembers(faces[1..], f);
      assert forall k :: 0 < k < |faces| ==> faces[k] == faces[1..][k - 1];
      assert faces == [faces[0]] + faces[1..];
    }
  }

  /**
   * The alert rule: an unknown face, or motion with no face at all. Faces
   * that are all known exonerate the motion.
   */
  lemma SuspiciousRule(c: Sample)
    ensures Suspicious(c) <==>
      (exists k :: 0 <= k < |c.faces| && c.faces[k].name == Faces.Unknown) || (c.contours != [] && c.faces == [])
    ensures c.faces != [] && (forall k :: 0 <= k < |c.faces| ==> c.faces[k].name != Faces.Unknown) ==> !Suspicious(c)
  {
    UnknownFacesMembers(c.faces, Faces.FaceMatch("", Box(0, 0, 0, 0)));
  }

  /**
   * The verdict of a tick: inside the persistence window and suspicious is
   * an alert, which starts the recorder and writes the frame; anything else,
   * in particular a stale detection, is "MONITORANDO" and stops the recorder.
   */
  lemma TickVerdict(w: World, t: Tick, env: Setup)
    requires SetupOk(env) && t.read.Some?
    ensures var frame := Resize(t.read.value, Width, Height);
      var w' := Step(w, t, env);
      var c := RecorderConfig(env.name);
      var alert := t.clock.now - w'.loop.lastDetection < 10.0 &&
        ((exists k :: 0 <= k < |w'.loop.cache.faces| && w'.loop.cache.faces[k].name == Faces.Unknown) ||
         (w'.loop.cache.contours != [] && w'.loop.cache.faces == []));
      && w'.published == w.published + [if alert then AlertText else MonitorText]
      && w'.recorder == (if alert then Rec.Written(Rec.Started(w.recorder, c, t.stamp, t.opens), c, frame) else Rec.Stopped(w.recorder))
      && (!alert ==> w'.fires == w.fires && w'.lastAlert == w.lastAlert)
  {
    SuspiciousRule(Step(w, t, env).loop.cache);
  }

  /** The first processed frame has nothing stored to compare with, so it is never an alert. */
  lemma FirstTickMonitors(w: World, t: Tick, env: Setup)
    requires SetupOk(env) && t.read.Some?
    requires w.previous == None && w.loop == Fresh
    ensures Step(w, t, env).published == w.published + [MonitorText]
    ensures Step(w, t, env).recorder == Rec.Stopped(w.recorder)
    ensures Step(w, t, env).fires == w.fires
  {
    CascadeGated(None, Resize(t.read.value, Width, Height), env);
  }

  /**
   * The throttle: a notification and event fire exactly on an alert tick
   * whose clock is more than 30 seconds past `last_alert_time`, which then
   * takes the tick's time; no other tick touches either.
   */
  lemma FireRule(w: World, t: Tick, env: Setup)
    requires SetupOk(env) && t.read.Some?
    ensures var w' := Step(w, t, env);
      if w'.published[|w'.published| - 1] == AlertText && t.clock.alertCheck - w.lastAlert > ThrottleWindow then
        w'.fires == w.fires + [FireOf(env.name, Resize(t.read.value, Width, Height), w'.recorder, t.clock.alertStamp)]
        && w'.lastAlert == t.clock.alertStamp
      else
        w'.fires == w.fires && w'.lastAlert == w.lastAlert
  {
  }

  /** Any two notifications are more than 30 seconds apart. */
  predicate Spaced(fires: seq<Fire>)
  {
    forall i, j :: 0 <= i < j < |fires| ==> fires[j].at - fires[i].at > ThrottleWindow
  }

  predicate NoneAfter(fires: seq<Fire>, time: real)
  {
    forall i :: 0 <= i < |fires| ==> fires[i].at <= time
  }

  /** Within a tick the throttle test reads the clock before the new throttle time. */
  predicate ClockOrdered(ticks: seq<Tick>)
  {
    forall k :: 0 <= k < |ticks| ==> ticks[k].clock.alertCheck <= ticks[k].clock.alertStamp
  }

  /**
   * The throttle keeps every two notifications of a camera more than 30
   * seconds apart, starting from the thread's initial state with no fire.
   */
  lemma {:induction false} FiresSpaced(w: World, ticks: seq<Tick>, env: Setup)
    requires SetupOk(env) && ClockOrdered(ticks)
    requires Spaced(w.fires) && NoneAfter(w.fires, w.lastAlert)
    ensures Spaced(Replay(w, ticks, env).fires)
    ensures NoneAfter(Replay(w, ticks, env).fires, Replay(w, ticks, env).lastAlert)
  {
    if ticks != [] {
      var init := ticks[..|ticks| - 1];
      var t := ticks[|ticks| - 1];
      assert ClockOrdered(init) by {
        forall k | 0 <= k < |init|
          ensures init[k].clock.alertCheck <= init[k].clock.alertStamp
        {
          assert init[k] == ticks[k];
        }
      }
      FiresSpaced(w, init, env);
      var before := Replay(w, init, env);
      if t.read.Some? {
        FireRule(before, t, env);
      }
    }
  }

  /** Every notification names the camera, its screenshot path and the alert text. */
  predicate EventFields(name: string, f: Fire)
  {
    && f.screenshot == "assets/alerta_" + name + ".png"
    && f.message == AlertMessage
    && f.event.eventType == AlertText
    && f.event.cameraName == name
    && f.event.imagePath == f.screenshot
  }

  lemma {:induction false} AllEventFields(w: World, ticks: seq<Tick>, env: Setup)
    requires SetupOk(env)
    requires forall k :: 0 <= k < |w.fires| ==> EventFields(env.name, w.fires[k])
    ensures forall k :: 0 <= k < |Replay(w, ticks, env).fires| ==> EventFields(env.name, Replay(w, ticks, env).fires[k])
  {
    if ticks != [] {
      AllEventFields(w, ticks[..|ticks| - 1], env);
      var before := Replay(w, ticks[..|ticks| - 1], env);
      var t := ticks[|ticks| - 1];
      if t.read.Some? {
        FireRule(before, t, env);
      }
    }
  }

  /**
   * An event's video is the file the recorder is writing: the current one
   * if it was already recording, the newly named one if it starts now, and
   * none if the writer cannot be created.
   */
  lemma FireVideo(w: World, t: Tick, env: Setup)
    requires SetupOk(env) && t.read.Some? && Rec.Inv(w.recorder)
    requires |Step(w, t, env).fires| == |w.fires| + 1
    ensures var f := Step(w, t, env).fires[|w.fires|];
      f.event.videoPath ==
        if w.recorder.recording then Some(w.recorder.fileName)
        else if t.opens then Some("videos/" + env.name + "_" + t.stamp + ".avi")
        else None
  {
    FireRule(w, t, env);
    assert Rec.FileName(env.name + "_", t.stamp) == "videos/" + env.name + "_" + t.stamp + ".avi";
  }

  /** The recorder command of one tick: none for a failed read, else start-and-write or stop. */
  function CommandOf(w: World, t: Tick, env: Setup): seq<Rec.Command>
    requires SetupOk(env)
  {
    if t.read.None? then []
    else
      var frame := Resize(t.read.value, Width, Height);
      if Alerting(Sampled(w, frame, t, env).loop, t.clock.now) then [Rec.Record(frame, t.stamp, t.opens)] else [Rec.Halt]
  }

  /** The commands a run of ticks gives the recorder, in order. */
  function Commands(w: World, ticks: seq<Tick>, env: Setup): seq<Rec.Command>
    requires SetupOk(env)
  {
    if ticks == [] then []
    else
      var init := ticks[..|ticks| - 1];
      Commands(w, init, env) + CommandOf(Replay(w, init, env), ticks[|ticks| - 1], env)
  }

  /**
   * The recorder of the thread is driven by one command per processed frame,
   * an alert being a start-and-write and anything else a stop.
   */
  lemma {:induction false} RecorderFollowsCommands(w: World, ticks: seq<Tick>, env: Setup)
    requires SetupOk(env)
    ensures Replay(w, ticks, env).recorder == Rec.Drive(w.recorder, RecorderConfig(env.name), Commands(w, ticks, env))
    ensures |Commands(w, ticks, env)| == Reads(ticks)
    ensures forall k :: 0 <= k < |Commands(w, ticks, env)| && Commands(w, ticks, env)[k].Record? ==>
      exists j :: 0 <= j < |ticks| && Commands(w, ticks, env)[k].opens == ticks[j].opens
  {
    var c := RecorderConfig(env.name);
    if ticks != [] {
      var init := ticks[..|ticks| - 1];
      var t := ticks[|ticks| - 1];
      var before := Replay(w, init, env);
      RecorderFollowsCommands(w, init, env);
      var last := CommandOf(before, t, env);
      Rec.DriveAppend(w.recorder, c, Commands(w, init, env), last);
      assert Rec.Drive(before.recorder, c, last) == Replay(w, ticks, env).recorder by {
        if last != [] {
          assert last[1..] == [];
        }
      }
      var all := Commands(w, ticks, env);
      forall k | 0 <= k < |all| && all[k].Record?
        ensures exists j :: 0 <= j < |ticks| && all[k].opens == ticks[j].opens
      {
        if k < |Commands(w, init, env)| {
          assert all[k] == Commands(w, init, env)[k];
          var j :| 0 <= j < |init| && all[k].opens == init[j].opens;
          assert init[j] == ticks[j];
        } else {
          assert all[k].opens == ticks[|ticks| - 1].opens;
        }
      }
    }
  }

  /**
   * When every writer can be created, the thread's recorder opens exactly
   * one video per alert episode and releases one per episode end.
   */
  lemma OneVideoPerEpisode(w: World, ticks: seq<Tick>, env: Setup)
    requires SetupOk(env) && Rec.Inv(w.recorder)
    requires forall k :: 0 <= k < |ticks| ==> ticks[k].opens
    ensures var cmds := Commands(w, ticks, env);
      var r := Replay(w, ticks, env).recorder;
      && Rec.Inv(r)
      && CountOpened(r.effects) == CountOpened(w.recorder.effects) + Rec.Rises(w.recorder.recording, cmds)
      && CountReleased(r.effects) == CountReleased(w.recorder.effects) + Rec.Falls(w.recorder.recording, cmds)
  {
    RecorderFollowsCommands(w, ticks, env);
    var cmds := Commands(w, ticks, env);
    forall i | 0 <= i < |cmds| && cmds[i].Record?
      ensures cmds[i].opens
    {
      var j :| 0 <= j < |ticks| && cmds[i].opens == ticks[j].opens;
    }
    Rec.OneFilePerEpisode(w.recorder, RecorderConfig(env.name), cmds);
  }

  /** No contour of any frame pair reaches the area threshold. */
  ghost predicate Still(m: Models)
  {
    forall p: Gray, g: Gray :: Detection.LargeContours(m.diff(p, g)) == []
  }

  /**
   * A still scene: every processed frame is "MONITORANDO", the recorder
   * never opens a video and no notification fires.
   */
  lemma {:induction false} QuietScene(w: World, ticks: seq<Tick>, env: Setup)
    requires SetupOk(env) && Still(env.models) && w.loop.cache == Empty
    ensures var r := Replay(w, ticks, env);
      && r.loop.cache == Empty && r.fires == w.fires && r.lastAlert == w.lastAlert
      && |r.published| >= |w.published| && r.published[..|w.published|] == w.published
      && (forall k :: |w.published| <= k < |r.published| ==> r.published[k] == MonitorText)
      && CountOpened(r.recorder.effects) == CountOpened(w.recorder.effects)
      && (Reads(ticks) > 0 ==> !r.recorder.recording)
  {
    if ticks != [] {
      var init := ticks[..|ticks| - 1];
      var t := ticks[|ticks| - 1];
      QuietScene(w, init, env);
      var before := Replay(w, init, env);
      if t.read.Some? {
        var s := before.recorder;
        if s.recording {
          CountsAppend(s.effects, if s.writer.Some? then [Released(s.writer.value)] else []);
        }
      }
    }
  }
}
