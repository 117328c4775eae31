/**
 * The recorder of FrontEnd/gravador.py: an idempotent start/stop state
 * machine over `gravando`, the file name and the video writer. The
 * writer's own work (opening, encoding and closing the file) is recorded
 * as a log of effects.
 */
module FrontEndRecorder {
  import opened Vision

  /** The directory every recording is written to. */
  const Folder: string := "videos"

  /** The writer's frame rate. */
  const Fps: real := 10.0

  /** The fixed settings given to the constructor. */
  datatype Config = Config(width: nat, height: nat, prefix: string)

  /** The recorder's state: `gravando`, `nome_arquivo`, `video_writer` and the effect log. */
  datatype Session = Session(recording: bool, fileName: string, writer: Option<Writer>, effects: seq<Effect>)

  /** A fresh recorder. */
  const Idle: Session := Session(false, "", None, [])

  /** `os.path.join("videos", prefix + timestamp + ".avi")`. */
  function FileName(prefix: string, stamp: string): string
  {
    Join(Folder, prefix + stamp + ".avi")
  }

  /** Recording exactly when a writer is open, and that writer is on the current file. */
  predicate Inv(s: Session)
  {
    && (s.recording <==> s.writer.Some?)
    && (s.writer.Some? ==> s.writer.value.path == s.fileName)
  }

  /**
   * iniciar_gravacao: nothing while recording; otherwise a new file name
   * and, when the writer can be created, an open writer. When the writer
   * constructor raises, `gravando` falls back to False.
   */
  function Started(s: Session, c: Config, stamp: string, opens: bool): Session
  {
    if s.recording then s
    else
      var name := FileName(c.prefix, stamp);
      if opens then
        var w := Writer(name, Fps, c.width, c.height);
        Session(true, name, Some(w), s.effects + [Opened(w)])
      else s.(fileName := name)
  }

  /** gravar_frame: while recording with an open writer, one frame at the configured size. */
  function Written(s: Session, c: Config, frame: Frame): Session
  {
    if s.recording && s.writer.Some? then
      s.(effects := s.effects + [Wrote(s.writer.value, Resize(frame, c.width, c.height))])
    else s
  }

  /** parar_gravacao: while recording, release the writer and clear writer and file name. */
  function Stopped(s: Session): Session
  {
    if s.recording then
      Session(false, "", None, s.effects + (if s.writer.Some? then [Released(s.writer.value)] else []))
    else s
  }

  class Recorder {
    const width: nat
    const height: nat
    const prefix: string
    var recording: bool
    var fileName: string
    var writer: Option<Writer>
    var effects: seq<Effect>

    function Settings(): Config
    {
      Config(width, height, prefix)
    }

    function State(): Session
      reads this
    {
      Session(recording, fileName, writer, effects)
    }

    ghost predicate Valid()
      reads this
    {
      Inv(State())
    }

    /** `Gravador(largura=640, altura=360, prefixo_nome="camera_")`. */
    constructor (width: nat := 640, height: nat := 360, prefix: string := "camera_")
      ensures Valid()
      ensures Settings() == Config(width, height, prefix)
      ensures State() == Idle
    {
      this.width := width;
      this.height := height;
      this.prefix := prefix;
      recording := false;
      fileName := "";
      writer := None;
      effects := [];
    }

    /** iniciar_gravacao, with the timestamp and whether the writer can be created given. */
    method Start(stamp: string, opens: bool)
      requires Valid()
      modifies this
      ensures Valid()
      ensures State() == Started(old(State()), Settings(), stamp, opens)
    {
      if !recording {
        recording := true;
        fileName := Join(Folder, prefix + stamp + ".avi");
        if opens {
          var w := Writer(fileName, Fps, width, height);
          writer := Some(w);
          effects := effects + [Opened(w)];
        } else {
          recording := false;
        }
      }
    }

    /** gravar_frame. */
    method WriteFrame(frame: Frame)
      requires Valid()
      modifies this
      ensures Valid()
      ensures State() == Written(old(State()), Settings(), frame)
    {
      if recording && writer != None {
        effects := effects + [Wrote(writer.value, Resize(frame, width, height))];
      }
    }

    /** parar_gravacao. */
    method Stop()
      requires Valid()
      modifies this
      ensures Valid()
      ensures State() == Stopped(old(State()))
    {
      if recording {
        recording := false;
        if writer != None {
          effects := effects + [Released(writer.value)];
        }
        writer := None;
        fileName := "";
      }
    }

    /** finalizar: the same as parar_gravacao. */
    method Finalize()
      requires Valid()
      modifies this
      ensures Valid()
      ensures State() == Stopped(old(State()))
    {
      Stop();
    }
  }

  /** Every operation keeps the invariant "not recording implies no writer". */
  lemma OperationsKeepInv(s: Session, c: Config, stamp: string, opens: bool, frame: Frame)
    requires Inv(s)
    ensures Inv(Started(s, c, stamp, opens))
    ensures Inv(Written(s, c, frame))
    ensures Inv(Stopped(s))
    ensures !Stopped(s).recording && Stopped(s).writer == None
  {
  }

  /** Starting while recording changes neither the file name nor the writer. */
  lemma StartWhileRecording(s: Session, c: Config, stamp: string, opens: bool)
    requires s.recording
    ensures Started(s, c, stamp, opens) == s
  {
  }

  /** A successful start records to prefix + timestamp + ".avi" in the videos folder. */
  lemma StartNames(s: Session, c: Config, stamp: string)
    requires !s.recording
    ensures Started(s, c, stamp, true).recording
    ensures Started(s, c, stamp, true).fileName == "videos/" + c.prefix + stamp + ".avi"
    ensures Started(s, c, stamp, true).writer == Some(Writer("videos/" + c.prefix + stamp + ".avi", 10.0, c.width, c.height))
  {
  }

  /** A writer that cannot be created leaves the recorder not recording and with no writer. */
  lemma StartFailureDegrades(s: Session, c: Config, stamp: string)
    requires Inv(s) && !s.recording
    ensures !Started(s, c, stamp, false).recording && Started(s, c, stamp, false).writer == None
    ensures Started(s, c, stamp, false).effects == s.effects
  {
  }

  /** gravar_frame writes nothing unless recording; when it writes, the frame is resized. */
  lemma WriteNeedsRecording(s: Session, c: Config, frame: Frame)
    requires Inv(s)
    ensures !s.recording ==> Written(s, c, frame) == s
    ensures s.recording ==> Written(s, c, frame).effects == s.effects + [Wrote(s.writer.value, Frame(frame.content, c.width, c.height))]
  {
  }

  /** Stopping a recording releases its writer exactly once. */
  lemma StopReleasesOnce(s: Session)
    requires Inv(s)
    ensures CountReleased(Stopped(s).effects) == CountReleased(s.effects) + (if s.recording then 1 else 0)
    ensures CountOpened(Stopped(s).effects) == CountOpened(s.effects)
  {
    if s.recording {
      CountsAppend(s.effects, [Released(s.writer.value)]);
    }
  }

  /** Stopping twice is stopping once; stopping an idle recorder changes nothing. */
  lemma StopIdempotent(s: Session)
    ensures Stopped(Stopped(s)) == Stopped(s)
    ensures !s.recording ==> Stopped(s) == s
  {
  }

  /** The per-tick call pattern of the capture loops: start and write on an alert, stop otherwise. */
  datatype Command = Record(frame: Frame, stamp: string, opens: bool) | Halt

  function Apply(s: Session, c: Config, cmd: Command): Session
  {
    match cmd
    case Record(f, stamp, opens) => Written(Started(s, c, stamp, opens), c, f)
    case Halt => Stopped(s)
  }

  function Drive(s: Session, c: Config, cmds: seq<Command>): Session
    decreases |cmds|
  {
    if cmds == [] then s else Drive(Apply(s, c, cmds[0]), c, cmds[1..])
  }

  /** Driving through two command lists is driving through their concatenation. */
  lemma {:induction false} DriveAppend(s: Session, c: Config, a: seq<Command>, b: seq<Command>)
    ensures Drive(s, c, a + b) == Drive(Drive(s, c, a), c, b)
    decreases |a|
  {
    if a != [] {
      assert (a + b)[0] == a[0];
      assert (a + b)[1..] == a[1..] + b;
      DriveAppend(Apply(s, c, a[0]), c, a[1..], b);
    } else {
      assert a + b == b;
    }
  }

  /** Commands that begin an episode: a Record after a Halt (or on an idle recorder). */
  function Rises(recording: bool, cmds: seq<Command>): nat
    decreases |cmds|
  {
    if cmds == [] then 0
    else (if cmds[0].Record? && !recording then 1 else 0) + Rises(cmds[0].Record?, cmds[1..])
  }

  /** Commands that end an episode: a Halt after a Record (or on a recording recorder). */
  function Falls(recording: bool, cmds: seq<Command>): nat
    decreases |cmds|
  {
    if cmds == [] then 0
    else (if cmds[0].Halt? && recording then 1 else 0) + Falls(cmds[0].Record?, cmds[1..])
  }

  /**
   * When every writer can be created, the recorder opens exactly one file
   * per episode start and releases exactly one per episode end; repeated
   * commands of the same kind open and release nothing.
   */
  lemma {:induction false} OneFilePerEpisode(s: Session, c: Config, cmds: seq<Command>)
    requires Inv(s)
    requires forall i :: 0 <= i < |cmds| && cmds[i].Record? ==> cmds[i].opens
    ensures Inv(Drive(s, c, cmds))
    ensures CountOpened(Drive(s, c, cmds).effects) == CountOpened(s.effects) + Rises(s.recording, cmds)
    ensures CountReleased(Drive(s, c, cmds).effects) == CountReleased(s.effects) + Falls(s.recording, cmds)
    decreases |cmds|
  {
    if cmds != [] {
      var s1 := Apply(s, c, cmds[0]);
      assert forall i :: 0 <= i < |cmds[1..]| && cmds[1..][i].Record? ==> cmds[1..][i].opens by {
        forall i | 0 <= i < |cmds[1..]| && cmds[1..][i].Record?
          ensures cmds[1..][i].opens
        {
          assert cmds[1..][i] == cmds[i + 1];
        }
      }
      match cmds[0]
      case Record(f, stamp, opens) =>
        var s0 := Started(s, c, stamp, opens);
        if !s.recording {
          CountsAppend(s.effects, [Opened(s0.writer.value)]);
          CountsAppend(s0.effects, [Wrote(s0.writer.value, Resize(f, c.width, c.height))]);
        } else {
          CountsAppend(s.effects, [Wrote(s.writer.value, Resize(f, c.width, c.height))]);
        }
        OneFilePerEpisode(s1, c, cmds[1..]);
      case Halt =>
        if s.recording {
          CountsAppend(s.effects, [Released(s.writer.value)]);
        }
        OneFilePerEpisode(s1, c, cmds[1..]);
    }
  }
}
