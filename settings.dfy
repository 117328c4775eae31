/**
 * The camera settings of FrontEnd/main_gui.py: the JSON camera entries, the
 * settings dialog that renders each id into a text field and parses the
 * field back, the default configuration, and the placement of the camera
 * widgets on a two-column grid.
 */
module Settings {
  import opened Vision

  /**
   * A camera id as the JSON holds it: null, a device number or any string
   * (a stream URL when the dialog writes it).
   */
  datatype CameraId = NoCamera | Index(n: int) | Text(text: string)

  /** One entry of `settings['cameras']`. */
  datatype Camera = Camera(id: CameraId, name: string, placeholder: string)

  /** The three text fields of one camera in the dialog. */
  datatype Fields = Fields(name: string, id: string, placeholder: string)

  /** `str.lower` on ASCII letters. */
  function Lower(c: char): char
  {
    if 'A' <= c <= 'Z' then (c as int - 'A' as int + 'a' as int) as char else c
  }

  function LowerText(s: string): (r: string)
    ensures |r| == |s| && forall i :: 0 <= i < |s| ==> r[i] == Lower(s[i])
  {
    if s == [] then [] else [Lower(s[0])] + LowerText(s[1..])
  }

  predicate IsDigit(c: char)
  {
    '0' <= c <= '9'
  }

  /** `str.isdigit` on ASCII: non-empty and every character a digit. */
  predicate AllDigits(s: string)
  {
    |s| > 0 && forall i :: 0 <= i < |s| ==> IsDigit(s[i])
  }

  /** `int(s)` of a digit string, leading zeros allowed. */
  function DigitsValue(s: string): nat
  {
    if s == [] then 0 else 10 * DigitsValue(s[..|s| - 1]) + (s[|s| - 1] as int - '0' as int) % 10
  }

  function DigitChar(d: nat): char
    requires d < 10
  {
    ('0' as int + d) as char
  }

  /** `str(n)` for a natural number: no leading zero. */
  function Decimal(n: nat): (r: string)
    ensures |r| > 0
    decreases n
  {
    if n < 10 then [DigitChar(n)] else Decimal(n / 10) + [DigitChar(n % 10)]
  }

  /** `str(i)` for an integer. */
  function Str(i: int): string
  {
    if i < 0 then "-" + Decimal(-i) else Decimal(i)
  }

  /** The URL prefixes get_settings recognises, compared after lower-casing. */
  predicate IsStream(text: string)
  {
    StartsWith(LowerText(text), "http") || StartsWith(LowerText(text), "rtsp")
  }

  /** The id a field's text stands for. */
  function ParseId(text: string): (r: CameraId)
    ensures r.Text? <==> IsStream(text)
    ensures r.Text? ==> r.text == text
    ensures r.Index? <==> !IsStream(text) && AllDigits(text)
    ensures r.Index? ==> r.n == DigitsValue(text)
    ensures text == "" ==> r == NoCamera
  {
    if IsStream(text) then Text(text)
    else if AllDigits(text) then Index(DigitsValue(text))
    else NoCamera
  }

  /** The text the dialog writes into an id field: "" for null, str(id) otherwise. */
  function RenderId(id: CameraId): string
  {
    match id
    case NoCamera => ""
    case Index(n) => Str(n)
    case Text(t) => t
  }

  /** The ids that survive being rendered and parsed again. */
  predicate Representable(id: CameraId)
  {
    match id
    case NoCamera => true
    case Index(n) => n >= 0
    case Text(t) => IsStream(t)
  }

  lemma {:induction false} DigitsValueAppend(s: string, d: nat)
    requires d < 10
    ensures DigitsValue(s + [DigitChar(d)]) == 10 * DigitsValue(s) + d
  {
    assert (s + [DigitChar(d)])[..|s|] == s;
  }

  /** `str(n)` is a digit string that reads back as n. */
  lemma {:induction false} DecimalRoundTrip(n: nat)
    ensures AllDigits(Decimal(n)) && DigitsValue(Decimal(n)) == n
    decreases n
  {
    if n < 10 {
      assert DigitsValue([DigitChar(n)]) == 10 * DigitsValue([]) + n by {
        DigitsValueAppend([], n);
      }
    } else {
      DecimalRoundTrip(n / 10);
      DigitsValueAppend(Decimal(n / 10), n % 10);
      var r := Decimal(n);
      assert r == Decimal(n / 10) + [DigitChar(n % 10)];
      forall i | 0 <= i < |r|
        ensures IsDigit(r[i])
      {
        if i < |r| - 1 {
          assert r[i] == Decimal(n / 10)[i];
        }
      }
    }
  }

  /** A digit string never starts like a URL. */
  lemma DigitsAreNotStreams(s: string)
    requires AllDigits(s)
    ensures !IsStream(s)
  {
    assert Lower(s[0]) == s[0];
  }

  /**
   * Unedited fields give back the original id when it is null, a device
   * number that is not negative, or a URL starting with http or rtsp.
   */
  lemma RenderParses(id: CameraId)
    requires Representable(id)
    ensures ParseId(RenderId(id)) == id
  {
    if id.Index? {
      DecimalRoundTrip(id.n);
      DigitsAreNotStreams(Decimal(id.n));
    }
  }

  /** A negative device number renders with a minus sign and comes back as null. */
  lemma NegativeIndexLost(n: int)
    requires n < 0
    ensures ParseId(RenderId(Index(n))) == NoCamera
  {
    var text := RenderId(Index(n));
    assert text[0] == '-';
    assert LowerText(text)[0] == '-';
  }

  /** A text that is neither a URL nor digits (a file path, say) comes back as null. */
  lemma OtherTextLost(t: string)
    requires !IsStream(t) && !AllDigits(t)
    ensures ParseId(RenderId(Text(t))) == NoCamera
  {
  }

  /** `get_settings`: one entry per camera, in order, with name and placeholder verbatim. */
  function GetSettings(edits: seq<Fields>): (r: seq<Camera>)
    ensures |r| == |edits|
    ensures forall i :: 0 <= i < |edits| ==> r[i] == Camera(ParseId(edits[i].id), edits[i].name, edits[i].placeholder)
  {
    if edits == [] then []
    else
      var e := edits[|edits| - 1];
      GetSettings(edits[..|edits| - 1]) + [Camera(ParseId(e.id), e.name, e.placeholder)]
  }

  /** `SettingsDialog.__init__`: the fields written for each camera. */
  function DialogFields(cameras: seq<Camera>): (r: seq<Fields>)
    ensures |r| == |cameras|
    ensures forall i :: 0 <= i < |cameras| ==> r[i] == Fields(cameras[i].name, RenderId(cameras[i].id), cameras[i].placeholder)
  {
    if cameras == [] then []
    else
      var c := cameras[|cameras| - 1];
      DialogFields(cameras[..|cameras| - 1]) + [Fields(c.name, RenderId(c.id), c.placeholder)]
  }

  /** Saving the dialog unedited gives back the settings it was opened with. */
  lemma DialogRoundTrip(cameras: seq<Camera>)
    requires forall i :: 0 <= i < |cameras| ==> Representable(cameras[i].id)
    ensures GetSettings(DialogFields(cameras)) == cameras
  {
    forall c | c in cameras
      ensures ParseId(RenderId(c.id)) == c.id
    {
      RenderParses(c.id);
    }
  }

  /** The placeholder image of the default cameras. */
  const NoSignal: string := "assets/no_signal.png"

  /** `load_settings` fallback: four disabled cameras named "Câmera 1" to "Câmera 4". */
  function DefaultCameras(): seq<Camera>
  {
    seq(4, i requires 0 <= i < 4 => Camera(NoCamera, "Câmera " + Decimal(i + 1), NoSignal))
  }

  lemma DefaultConfig()
    ensures |DefaultCameras()| == 4
    ensures DefaultCameras() == [
      Camera(NoCamera, "Câmera 1", "assets/no_signal.png"), Camera(NoCamera, "Câmera 2", "assets/no_signal.png"),
      Camera(NoCamera, "Câmera 3", "assets/no_signal.png"), Camera(NoCamera, "Câmera 4", "assets/no_signal.png")]
    ensures GetSettings(DialogFields(DefaultCameras())) == DefaultCameras()
  {
    var d := DefaultCameras();
    assert Decimal(1) == "1" && Decimal(2) == "2" && Decimal(3) == "3" && Decimal(4) == "4";
    assert d[0].name == "Câmera 1" && d[1].name == "Câmera 2" && d[2].name == "Câmera 3" && d[3].name == "Câmera 4";
    DialogRoundTrip(DefaultCameras());
  }

  /** config.json as `load_settings` finds it. */
  datatype ConfigFile = Missing | Malformed | Parsed(cameras: seq<Camera>)

  /** `load_settings`: the file's cameras, or the default when it is missing or not JSON. */
  function LoadSettings(file: ConfigFile): seq<Camera>
  {
    match file
    case Parsed(cameras) => cameras
    case _ => DefaultCameras()
  }

  /**
   * Without a readable config.json the window starts with the four default
   * cameras, all disabled; a readable one is taken as it is.
   */
  lemma FallbackConfig(file: ConfigFile)
    ensures file.Parsed? ==> LoadSettings(file) == file.cameras
    ensures !file.Parsed? ==> |LoadSettings(file)| == 4
    ensures !file.Parsed? ==> forall k :: 0 <= k < 4 ==> LoadSettings(file)[k].id == NoCamera && LoadSettings(file)[k].placeholder == NoSignal
    ensures !file.Parsed? ==> Placement(LoadSettings(file)) == [
      ((0, 0), DefaultCameras()[0]), ((0, 1), DefaultCameras()[1]), ((1, 0), DefaultCameras()[2]), ((1, 1), DefaultCameras()[3])]
  {
    PlacementCells(LoadSettings(file));
  }

  /** The cells of row i, `(i, j) for j in range(cols)`. */
  function Row(i: nat, cols: nat): seq<(nat, nat)>
  {
    if cols == 0 then [] else Row(i, cols - 1) + [(i, cols - 1)]
  }

  /** `[(i, j) for i in range(rows) for j in range(cols)]`. */
  function Grid(rows: nat, cols: nat): seq<(nat, nat)>
  {
    if rows == 0 then [] else Grid(rows - 1, cols) + Row(rows - 1, cols)
  }

  /** `zip(positions, cameras)`: the cell of each widget, up to the cells available. */
  function Placement(cameras: seq<Camera>): (r: seq<((nat, nat), Camera)>)
  {
    var cells := Grid(2, 2);
    seq(if |cameras| < |cells| then |cameras| else |cells|, k requires 0 <= k < |cells| && k < |cameras| => (cells[k], cameras[k]))
  }

  /** At most four widgets; the k-th camera is placed at row k div 2, column k mod 2. */
  lemma PlacementCells(cameras: seq<Camera>)
    ensures |Placement(cameras)| == if |cameras| < 4 then |cameras| else 4
    ensures forall k :: 0 <= k < |Placement(cameras)| ==> Placement(cameras)[k] == ((k / 2, k % 2), cameras[k])
  {
    assert Row(0, 2) == [(0, 0), (0, 1)];
    assert Row(1, 2) == [(1, 0), (1, 1)];
    assert Grid(2, 2) == [(0, 0), (0, 1), (1, 0), (1, 1)];
  }
}
