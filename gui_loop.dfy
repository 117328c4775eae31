/**
 * The capture thread of FrontEnd/main_gui.py. It is the two-stage cascade
 * with no face stage and no notifications: every frame within 10 seconds of
 * the last detection is "ATIVIDADE DETECTADA" and is recorded, every other
 * frame is "MONITORANDO" and stops the recording. The detector and the
 * recorder are created by `run` itself, after the capture has opened.
 */
module GuiLoop {
  import opened Vision
  import Detection
  import MotionLoop
  import Rec = FrontEndRecorder

  const Width: nat := 640
  const Height: nat := 360

  const ActivityText: string := "ATIVIDADE DETECTADA"
  const MonitorText: string := "MONITORANDO"

  /**
   * One read of the capture: the frame, or None when the read fails; the
   * clock at line 143 and at line 146; and, for a recording that starts on
   * this tick, its timestamp text and whether the writer can be created.
   */
  datatype Tick = Tick(read: Option<Frame>, detected: real, now: real, stamp: string, opens: bool)

  /** The detector's frame, the loop's memory, the recorder and the status drawn on each frame. */
  datatype World = World(previous: Option<Gray>, memory: MotionLoop.Memory, recorder: Rec.Session, published: seq<string>)

  const Begin: World := World(None, MotionLoop.Start, Rec.Idle, [])

  /** `Gravador(largura=w, altura=h, prefixo_nome=f"{nome_camera}_")`. */
  function RecorderConfig(name: string): Rec.Config
  {
    Rec.Config(Width, Height, name + "_")
  }

  /** One tick: a failed read is skipped; otherwise sample, then record or stop. */
  function Step(w: World, t: Tick, m: Models, name: string): World
  {
    if t.read.None? then w
    else
      var frame := Resize(t.read.value, Width, Height);
      var o := MotionLoop.Sampled(w.previous, w.memory, frame, t.detected, m);
      var c := RecorderConfig(name);
      if Persisting(t.now, o.memory.lastDetection) then
        World(o.previous, o.memory, Rec.Written(Rec.Started(w.recorder, c, t.stamp, t.opens), c, frame), w.published + [ActivityText])
      else
        World(o.previous, o.memory, Rec.Stopped(w.recorder), w.published + [MonitorText])
  }

  function Replay(w: World, ticks: seq<Tick>, m: Models, name: string): World
  {
    if ticks == [] then w else Step(Replay(w, ticks[..|ticks| - 1], m, name), ticks[|ticks| - 1], m, name)
  }

  class CameraThread {
    const name: string

    constructor (name: string)
      ensures this.name == name
    {
      this.name := name;
    }

    /**
     * `run`: `captureOpen` is whether the capture opened. Without it the
     * thread returns before creating a recorder, so nothing is finalized.
     * Otherwise it returns the status of each processed frame and the
     * recorder as the `finally` block leaves it.
     */
    method Run(captureOpen: bool, ticks: seq<Tick>, m: Models) returns (published: seq<string>, recorded: Option<Rec.Session>)
      ensures !captureOpen ==> published == [] && recorded == None
      ensures captureOpen ==>
        var w := Replay(Begin, ticks, m, name);
        published == w.published && recorded == Some(Rec.Stopped(w.recorder))
    {
      if !captureOpen {
        return [], None;
      }
      var detector := new Detection.Detector();
      var recorder := new Rec.Recorder(Width, Height, name + "_");
      var memory := MotionLoop.Start;
      published := [];
      var i := 0;
      while i < |ticks|
        invariant 0 <= i <= |ticks|
        invariant recorder.Valid() && recorder.Settings() == RecorderConfig(name)
        invariant World(detector.previous, memory, recorder.State(), published) == Replay(Begin, ticks[..i], m, name)
      {
        assert ticks[..i + 1][..i] == ticks[..i];
        var t := ticks[i];
        i := i + 1;
        if t.read == None {
          continue;
        }
        var frame := Resize(t.read.value, Width, Height);
        memory := MotionLoop.Observe(detector, frame, t.detected, m, memory);
        if t.now - memory.lastDetection < Persistence {
          published := published + [ActivityText];
          recorder.Start(t.stamp, t.opens);
          recorder.WriteFrame(frame);
        } else {
          published := published + [MonitorText];
          recorder.Stop();
        }
      }
      assert ticks[..i] == ticks;
      recorder.Finalize();
      recorded := Some(recorder.State());
    }
  }

  /** The number of ticks whose read succeeded. */
  function Reads(ticks: seq<Tick>): nat
  {
    if ticks == [] then 0 else Reads(ticks[..|ticks| - 1]) + (if ticks[|ticks| - 1].read.Some? then 1 else 0)
  }

  /** The counter and the status list both count exactly the successful reads. */
  lemma {:induction false} FramesCountReads(w: World, ticks: seq<Tick>, m: Models, name: string)
    ensures Replay(w, ticks, m, name).memory.frames == w.memory.frames + Reads(ticks)
    ensures |Replay(w, ticks, m, name).published| == |w.published| + Reads(ticks)
  {
    if ticks != [] {
      FramesCountReads(w, ticks[..|ticks| - 1], m, name);
    }
  }

  /** Poses stay cached only together with motion. */
  lemma {:induction false} GatedKept(w: World, ticks: seq<Tick>, m: Models, name: string)
    requires MotionLoop.Gated(w.memory)
    ensures MotionLoop.Gated(Replay(w, ticks, m, name).memory)
  {
    if ticks != [] {
      GatedKept(w, ticks[..|ticks| - 1], m, name);
    }
  }

  /** The recorder command of one tick: none for a failed read, else start-and-write or stop. */
  function CommandOf(w: World, t: Tick, m: Models): seq<Rec.Command>
  {
    if t.read.None? then []
    else
      var frame := Resize(t.read.value, Width, Height);
      if Persisting(t.now, MotionLoop.Sampled(w.previous, w.memory, frame, t.detected, m).memory.lastDetection)
      then [Rec.Record(frame, t.stamp, t.opens)] else [Rec.Halt]
  }

  function Commands(w: World, ticks: seq<Tick>, m: Models, name: string): seq<Rec.Command>
  {
    if ticks == [] then []
    else
      var init := ticks[..|ticks| - 1];
      Commands(w, init, m, name) + CommandOf(Replay(w, init, m, name), ticks[|ticks| - 1], m)
  }

  /**
   * The verdict of a processed frame depends on the window alone, with no
   * exoneration: activity starts the recorder and writes the frame, anything
   * else stops it.
   */
  lemma TickVerdict(w: World, t: Tick, m: Models, name: string)
    requires t.read.Some?
    ensures var w' := Step(w, t, m, name);
      var active := t.now - w'.memory.lastDetection < 10.0;
      && w'.published == w.published + [if active then ActivityText else MonitorText]
      && CommandOf(w, t, m) == [if active then Rec.Record(Resize(t.read.value, Width, Height), t.stamp, t.opens) else Rec.Halt]
      && w'.recorder == Rec.Apply(w.recorder, RecorderConfig(name), CommandOf(w, t, m)[0])
  {
  }

  /** The recorder is driven by one command per processed frame. */
  lemma {:induction false} RecorderFollowsCommands(w: World, ticks: seq<Tick>, m: Models, name: string)
    ensures Replay(w, ticks, m, name).recorder == Rec.Drive(w.recorder, RecorderConfig(name), Commands(w, ticks, m, name))
    ensures |Commands(w, ticks, m, name)| == Reads(ticks)
    ensures (forall k :: 0 <= k < |ticks| ==> ticks[k].opens) ==>
      forall k :: 0 <= k < |Commands(w, ticks, m, name)| && Commands(w, ticks, m, name)[k].Record? ==> Commands(w, ticks, m, name)[k].opens
  {
    var c := RecorderConfig(name);
    if ticks != [] {
      var init := ticks[..|ticks| - 1];
      var t := ticks[|ticks| - 1];
      var before := Replay(w, init, m, name);
      RecorderFollowsCommands(w, init, m, name);
      var last := CommandOf(before, t, m);
      Rec.DriveAppend(w.recorder, c, Commands(w, init, m, name), last);
      if last != [] {
        assert last[1..] == [];
      }
      if forall k :: 0 <= k < |ticks| ==> ticks[k].opens {
        assert forall k :: 0 <= k < |init| ==> init[k] == ticks[k];
        var all := Commands(w, ticks, m, name);
        assert forall k :: 0 <= k < |Commands(w, init, m, name)| ==> all[k] == Commands(w, init, m, name)[k];
      }
    }
  }

  /** When every writer can be created, one video is opened per activity episode and released at its end. */
  lemma OneVideoPerEpisode(w: World, ticks: seq<Tick>, m: Models, name: string)
    requires Rec.Inv(w.recorder)
    requires forall k :: 0 <= k < |ticks| ==> ticks[k].opens
    ensures var cmds := Commands(w, ticks, m, name);
      var r := Replay(w, ticks, m, name).recorder;
      && Rec.Inv(r)
      && CountOpened(r.effects) == CountOpened(w.recorder.effects) + Rec.Rises(w.recorder.recording, cmds)
      && CountReleased(r.effects) == CountReleased(w.recorder.effects) + Rec.Falls(w.recorder.recording, cmds)
  {
    RecorderFollowsCommands(w, ticks, m, name);
    Rec.OneFilePerEpisode(w.recorder, RecorderConfig(name), Commands(w, ticks, m, name));
  }
}
