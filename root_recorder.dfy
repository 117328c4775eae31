/**
 * The recorder of the top-level gravador.py, used by main.py: the same
 * idempotent start/stop machine as the FrontEnd one, except that a start
 * always succeeds, frames are written as given, and stopping leaves the
 * last file name in place.
 */
module RootRecorder {
  import opened Vision

  const Folder: string := "videos"

  /** The writer's frame rate. */
  const Fps: real := 20.0

  /** The fixed settings given to the constructor. */
  datatype Config = Config(width: nat, height: nat, prefix: string)

  /** The recorder's state: `gravando`, `nome_arquivo`, `saida` and the effect log. */
  datatype Session = Session(recording: bool, fileName: string, writer: Option<Writer>, effects: seq<Effect>)

  const Idle: Session := Session(false, "", None, [])

  /** `os.path.join("videos", prefix + timestamp + ".avi")`. */
  function FileName(prefix: string, stamp: string): string
  {
    Join(Folder, prefix + stamp + ".avi")
  }

  /** Recording exactly when a writer is open, and that writer is on the current file. */
  predicate Inv(s: Session)
  {
    && (s.recording <==> s.writer.Some?)
    && (s.writer.Some? ==> s.writer.value.path == s.fileName)
  }

  /** iniciar_gravacao: nothing while recording; otherwise a new file and writer. */
  function Started(s: Session, c: Config, stamp: string): Session
  {
    if s.recording then s
    else
      var w := Writer(FileName(c.prefix, stamp), Fps, c.width, c.height);
      Session(true, w.path, Some(w), s.effects + [Opened(w)])
  }

  /** gravar_frame: while recording with an open writer, the frame as given. */
  function Written(s: Session, frame: Frame): Session
  {
    if s.recording && s.writer.Some? then s.(effects := s.effects + [Wrote(s.writer.value, frame)])
    else s
  }

  /** parar_gravacao: while recording, release and drop the writer; the file name stays. */
  function Stopped(s: Session): Session
  {
    if s.recording then
      s.(recording := false, writer := None,
         effects := s.effects + (if s.writer.Some? then [Released(s.writer.value)] else []))
    else s
  }

  class Recorder {
    const width: nat
    const height: nat
    const prefix: string
    var recording: bool
    var writer: Option<Writer>
    var fileName: string
    var effects: seq<Effect>

    function Settings(): Config
    {
      Config(width, height, prefix)
    }

    function State(): Session
      reads this
    {
      Session(recording, fileName, writer, effects)
    }

    ghost predicate Valid()
      reads this
    {
      Inv(State())
    }

    /** `Gravador(largura=640, altura=480, prefixo_nome="gravacao_")`. */
    constructor (width: nat := 640, height: nat := 480, prefix: string := "gravacao_")
      ensures Valid()
      ensures Settings() == Config(width, height, prefix)
      ensures State() == Idle
    {
      this.width := width;
      this.height := height;
      this.prefix := prefix;
      recording := false;
      writer := None;
      fileName := "";
      effects := [];
    }

    /** iniciar_gravacao, with the timestamp given. */
    method Start(stamp: string)
      requires Valid()
      modifies this
      ensures Valid()
      ensures State() == Started(old(State()), Settings(), stamp)
    {
      if !recording {
        recording := true;
        fileName := Join(Folder, prefix + stamp + ".avi");
        var w := Writer(fileName, Fps, width, height);
        writer := Some(w);
        effects := effects + [Opened(w)];
      }
    }

    /** gravar_frame. */
    method WriteFrame(frame: Frame)
      requires Valid()
      modifies this
      ensures Valid()
      ensures State() == Written(old(State()), frame)
    {
      if recording && writer != None {
        effects := effects + [Wrote(writer.value, frame)];
      }
    }

    /** parar_gravacao. */
    method Stop()
      requires Valid()
      modifies this
      ensures Valid()
      ensures State() == Stopped(old(State()))
    {
      if recording {
        recording := false;
        if writer != None {
          effects := effects + [Released(writer.value)];
        }
        writer := None;
      }
    }

    /** finalizar: the same as parar_gravacao. */
    method Finalize()
      requires Valid()
      modifies this
      ensures Valid()
      ensures State() == Stopped(old(State()))
    {
      Stop();
    }
  }

  /** Every operation keeps the invariant; a start always leaves the recorder recording. */
  lemma OperationsKeepInv(s: Session, c: Config, stamp: string, frame: Frame)
    requires Inv(s)
    ensures Inv(Started(s, c, stamp)) && Started(s, c, stamp).recording
    ensures Inv(Written(s, frame))
    ensures Inv(Stopped(s)) && !Stopped(s).recording
  {
  }

  /** Starting while recording is a no-op; a start from idle names the file in the videos folder. */
  lemma StartNames(s: Session, c: Config, stamp: string)
    ensures s.recording ==> Started(s, c, stamp) == s
    ensures !s.recording ==> Started(s, c, stamp).fileName == "videos/" + c.prefix + stamp + ".avi"
  {
  }

  /** Unlike the FrontEnd recorder, stopping keeps the last file name. */
  lemma StopKeepsFileName(s: Session)
    ensures Stopped(s).fileName == s.fileName
    ensures Stopped(Stopped(s)) == Stopped(s)
    ensures !s.recording ==> Stopped(s) == s
  {
  }

  /** gravar_frame writes nothing unless recording, and writes the frame unresized. */
  lemma WriteNeedsRecording(s: Session, frame: Frame)
    requires Inv(s)
    ensures !s.recording ==> Written(s, frame) == s
    ensures s.recording ==> Written(s, frame).effects == s.effects + [Wrote(s.writer.value, frame)]
  {
  }

  /** The per-tick call pattern of main.py: start and write in the window, stop otherwise. */
  datatype Command = Record(frame: Frame, stamp: string) | Halt

  function Apply(s: Session, c: Config, cmd: Command): Session
  {
    match cmd
    case Record(f, stamp) => Written(Started(s, c, stamp), f)
    case Halt => Stopped(s)
  }

  function Drive(s: Session, c: Config, cmds: seq<Command>): Session
    decreases |cmds|
  {
    if cmds == [] then s else Drive(Apply(s, c, cmds[0]), c, cmds[1..])
  }

  /** Driving through two command lists is driving through their concatenation. */
  lemma {:induction false} DriveAppend(s: Session, c: Config, a: seq<Command>, b: seq<Command>)
    ensures Drive(s, c, a + b) == Drive(Drive(s, c, a), c, b)
    decreases |a|
  {
    if a != [] {
      assert (a + b)[0] == a[0];
      assert (a + b)[1..] == a[1..] + b;
      DriveAppend(Apply(s, c, a[0]), c, a[1..], b);
    } else {
      assert a + b == b;
    }
  }

  function Rises(recording: bool, cmds: seq<Command>): nat
    decreases |cmds|
  {
    if cmds == [] then 0
    else (if cmds[0].Record? && !recording then 1 else 0) + Rises(cmds[0].Record?, cmds[1..])
  }

  function Falls(recording: bool, cmds: seq<Command>): nat
    decreases |cmds|
  {
    if cmds == [] then 0
    else (if cmds[0].Halt? && recording then 1 else 0) + Falls(cmds[0].Record?, cmds[1..])
  }

  /** One file opened per episode start and one released per episode end. */
  lemma {:induction false} OneFilePerEpisode(s: Session, c: Config, cmds: seq<Command>)
    requires Inv(s)
    ensures Inv(Drive(s, c, cmds))
    ensures Drive(s, c, cmds).recording == if cmds == [] then s.recording else cmds[|cmds| - 1].Record?
    ensures CountOpened(Drive(s, c, cmds).effects) == CountOpened(s.effects) + Rises(s.recording, cmds)
    ensures CountReleased(Drive(s, c, cmds).effects) == CountReleased(s.effects) + Falls(s.recording, cmds)
    decreases |cmds|
  {
    if cmds != [] {
      var s1 := Apply(s, c, cmds[0]);
      match cmds[0] {
        case Record(f, stamp) =>
          var s0 := Started(s, c, stamp);
          if !s.recording {
            CountsAppend(s.effects, [Opened(s0.writer.value)]);
          }
          CountsAppend(s0.effects, [Wrote(s0.writer.value, f)]);
        case Halt =>
          if s.recording {
            CountsAppend(s.effects, [Released(s.writer.value)]);
          }
      }
      OneFilePerEpisode(s1, c, cmds[1..]);
      assert cmds[1..] != [] ==> cmds[1..][|cmds[1..]| - 1] == cmds[|cmds| - 1];
    }
  }
}
