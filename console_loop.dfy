/**
 * `processar_camera` of main.py: the two-stage cascade with the root
 * recorder. Unlike the GUI loops, a failed read ends the loop, and so does
 * the 'q' key after the frame it was pressed on; the capture is then
 * released and the recorder finalized. A capture that does not open returns
 * before the detector or the recorder exists.
 */
module ConsoleLoop {
  import opened Vision
  import MotionLoop
  import Detection
  import Root = RootRecorder

  const Width: nat := 640
  const Height: nat := 360

  const ActivityText: string := "STATUS: ATIVIDADE DETECTADA"
  const MonitorText: string := "STATUS: MONITORANDO"

  /**
   * One read of the capture: the frame or None; the clock at line 54 and at
   * line 61; the timestamp text of a recording starting now; and whether
   * `waitKey` returned 'q' after the frame was shown.
   */
  datatype Tick = Tick(read: Option<Frame>, detected: real, now: real, stamp: string, quit: bool)

  datatype World = World(previous: Option<Gray>, memory: MotionLoop.Memory, recorder: Root.Session, published: seq<string>)

  const Begin: World := World(None, MotionLoop.Start, Root.Idle, [])

  /** `Gravador(largura=640, altura=360, prefixo_nome=f"{nome_camera}_")`. */
  function RecorderConfig(name: string): Root.Config
  {
    Root.Config(Width, Height, name + "_")
  }

  /** How many ticks the loop processes: up to the first failed read, or through the first 'q'. */
  function Processed(ticks: seq<Tick>): nat
    ensures Processed(ticks) <= |ticks|
    ensures forall k :: 0 <= k < Processed(ticks) ==> ticks[k].read.Some?
  {
    if ticks == [] || ticks[0].read.None? then 0
    else if ticks[0].quit then 1
    else 1 + Processed(ticks[1..])
  }

  /** One processed frame: sample, then record or stop. */
  function Step(w: World, t: Tick, m: Models, name: string): World
    requires t.read.Some?
  {
    var frame := Resize(t.read.value, Width, Height);
    var o := MotionLoop.Sampled(w.previous, w.memory, frame, t.detected, m);
    if Persisting(t.now, o.memory.lastDetection) then
      World(o.previous, o.memory, Root.Written(Root.Started(w.recorder, RecorderConfig(name), t.stamp), frame), w.published + [ActivityText])
    else
      World(o.previous, o.memory, Root.Stopped(w.recorder), w.published + [MonitorText])
  }

  predicate AllRead(ticks: seq<Tick>)
  {
    forall k :: 0 <= k < |ticks| ==> ticks[k].read.Some?
  }

  function Replay(w: World, ticks: seq<Tick>, m: Models, name: string): World
    requires AllRead(ticks)
  {
    if ticks == [] then w
    else Step(Replay(w, ticks[..|ticks| - 1], m, name), ticks[|ticks| - 1], m, name)
  }

  /**
   * The processed ticks all read a frame and none before the last is a 'q';
   * the loop stopped because the next read failed, because the last
   * processed tick was a 'q', or because the stream ended.
   */
  lemma {:induction false} ProcessedPrefix(ticks: seq<Tick>)
    ensures AllRead(ticks[..Processed(ticks)])
    ensures forall k :: 0 <= k < Processed(ticks) - 1 ==> !ticks[k].quit
    ensures Processed(ticks) < |ticks| ==>
      ticks[Processed(ticks)].read.None? || (Processed(ticks) > 0 && ticks[Processed(ticks) - 1].quit)
  {
    assert forall k :: 0 <= k < Processed(ticks) ==> ticks[..Processed(ticks)][k] == ticks[k];
    if ticks != [] && ticks[0].read.Some? && !ticks[0].quit {
      var rest := ticks[1..];
      ProcessedPrefix(rest);
      forall k | 0 <= k < Processed(rest)
        ensures !ticks[k].quit
      {
        if k > 0 {
          assert ticks[k] == rest[k - 1];
        }
      }
    }
  }

  lemma AllReadPrefix(ticks: seq<Tick>, i: nat)
    requires i <= |ticks| && AllRead(ticks)
    ensures AllRead(ticks[..i])
  {
    assert forall k :: 0 <= k < i ==> ticks[..i][k] == ticks[k];
  }

  /**
   * `processar_camera`: `captureOpen` is whether the capture opened. The
   * result is the status drawn on each processed frame and the recorder as
   * `finalizar` leaves it, or None when no recorder was created.
   */
  method ProcessCamera(name: string, captureOpen: bool, ticks: seq<Tick>, m: Models)
    returns (published: seq<string>, recorded: Option<Root.Session>)
    ensures !captureOpen ==> published == [] && recorded == None
    ensures captureOpen ==>
      var w := Replay(Begin, ticks[..Processed(ticks)], m, name);
      published == w.published && recorded == Some(Root.Stopped(w.recorder))
  {
    if !captureOpen {
      return [], None;
    }
    var detector := new Detection.Detector();
    var recorder := new Root.Recorder(Width, Height, name + "_");
    var memory := MotionLoop.Start;
    published := [];
    ProcessedPrefix(ticks);
    ghost var n := Processed(ticks);
    var i := 0;
    while true
      invariant 0 <= i <= n
      invariant n == i + Processed(ticks[i..])
      invariant recorder.Valid() && recorder.Settings() == RecorderConfig(name)
      invariant AllRead(ticks[..i])
      invariant World(detector.previous, memory, recorder.State(), published) == Replay(Begin, ticks[..i], m, name)
      decreases |ticks| - i
    {
      if i == |ticks| || ticks[i].read == None {
        break;
      }
      var t := ticks[i];
      assert ticks[i..][0] == t && ticks[i..][1..] == ticks[i + 1..];
      assert ticks[..i + 1][..i] == ticks[..i] && ticks[..i + 1][i] == t;
      var frame := Resize(t.read.value, Width, Height);
      memory := MotionLoop.Observe(detector, frame, t.detected, m, memory);
      if t.now - memory.lastDetection < Persistence {
        published := published + [ActivityText];
        recorder.Start(t.stamp);
        recorder.WriteFrame(frame);
      } else {
        published := published + [MonitorText];
        recorder.Stop();
      }
      i := i + 1;
      if t.quit {
        break;
      }
    }
    assert i == n;
    recorder.Finalize();
    recorded := Some(recorder.State());
  }

  /**
   * The verdict of a processed frame depends on the window alone: activity
   * starts the recorder and writes the frame, anything else stops it.
   */
  lemma TickVerdict(w: World, t: Tick, m: Models, name: string)
    requires t.read.Some?
    ensures var w' := Step(w, t, m, name);
      var frame := Resize(t.read.value, Width, Height);
      if t.now - w'.memory.lastDetection < 10.0 then
        w'.published == w.published + [ActivityText]
        && w'.recorder == Root.Apply(w.recorder, RecorderConfig(name), Root.Record(frame, t.stamp))
      else
        w'.published == w.published + [MonitorText]
        && w'.recorder == Root.Apply(w.recorder, RecorderConfig(name), Root.Halt)
  {
  }

  /** Poses stay cached only together with motion, and the counter counts the processed frames. */
  lemma {:induction false} ReplayKeeps(w: World, ticks: seq<Tick>, m: Models, name: string)
    requires AllRead(ticks) && MotionLoop.Gated(w.memory)
    ensures MotionLoop.Gated(Replay(w, ticks, m, name).memory)
    ensures Replay(w, ticks, m, name).memory.frames == w.memory.frames + |ticks|
    ensures |Replay(w, ticks, m, name).published| == |w.published| + |ticks|
  {
    if ticks != [] {
      AllReadPrefix(ticks, |ticks| - 1);
      ReplayKeeps(w, ticks[..|ticks| - 1], m, name);
    }
  }

  /** The recorder command of one processed tick: start-and-write inside the window, stop outside it. */
  function CommandOf(w: World, t: Tick, m: Models): Root.Command
    requires t.read.Some?
  {
    var frame := Resize(t.read.value, Width, Height);
    if Persisting(t.now, MotionLoop.Sampled(w.previous, w.memory, frame, t.detected, m).memory.lastDetection)
    then Root.Record(frame, t.stamp) else Root.Halt
  }

  /** The commands a run of processed ticks gives the recorder, in order. */
  function Commands(w: World, ticks: seq<Tick>, m: Models, name: string): seq<Root.Command>
    requires AllRead(ticks)
  {
    if ticks == [] then []
    else
      var init := ticks[..|ticks| - 1];
      Commands(w, init, m, name) + [CommandOf(Replay(w, init, m, name), ticks[|ticks| - 1], m)]
  }

  /** The root recorder is driven by exactly one command per processed frame. */
  lemma {:induction false} RecorderFollowsCommands(w: World, ticks: seq<Tick>, m: Models, name: string)
    requires AllRead(ticks)
    ensures Replay(w, ticks, m, name).recorder == Root.Drive(w.recorder, RecorderConfig(name), Commands(w, ticks, m, name))
    ensures |Commands(w, ticks, m, name)| == |ticks|
  {
    if ticks != [] {
      var init := ticks[..|ticks| - 1];
      AllReadPrefix(ticks, |ticks| - 1);
      RecorderFollowsCommands(w, init, m, name);
      var last := [CommandOf(Replay(w, init, m, name), ticks[|ticks| - 1], m)];
      Root.DriveAppend(w.recorder, RecorderConfig(name), Commands(w, init, m, name), last);
      assert last[1..] == [];
    }
  }

  /**
   * Over the processed frames the root recorder opens one video per
   * activity episode and releases one at each episode's end.
   */
  lemma OneVideoPerEpisode(w: World, ticks: seq<Tick>, m: Models, name: string)
    requires AllRead(ticks) && Root.Inv(w.recorder)
    ensures var cmds := Commands(w, ticks, m, name);
      var r := Replay(w, ticks, m, name).recorder;
      && Root.Inv(r)
      && CountOpened(r.effects) == CountOpened(w.recorder.effects) + Root.Rises(w.recorder.recording, cmds)
      && CountReleased(r.effects) == CountReleased(w.recorder.effects) + Root.Falls(w.recorder.recording, cmds)
  {
    RecorderFollowsCommands(w, ticks, m, name);
    Root.OneFilePerEpisode(w.recorder, RecorderConfig(name), Commands(w, ticks, m, name));
  }

  /** A run of ticks stops at a failed read: nothing after it is processed. */
  lemma FailedReadEnds(ticks: seq<Tick>, k: nat)
    requires k < |ticks| && ticks[k].read.None?
    ensures Processed(ticks) <= k
  {
  }
}
