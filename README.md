# Sistema-De-Vigilancia: a verified model of the camera controller

Sistema-De-Vigilancia is a home surveillance system. For every camera a
capture loop reads frames. On every fourth frame it runs a cascade of
detectors: frame-differencing motion, then YOLO poses, then (in the GUI
controller of `FrontEnd/camera_stream.py`) face recognition. It keeps a
sticky cache of the last positive detection and judges every frame
against a 10-second persistence window. A frame is "ALERTA: ATIVIDADE
SUSPEITA!" or "MONITORANDO"; an alert starts the recorder and writes the
frame, and anything else stops the recorder; alert notifications and
database events are rate-limited to one per 30 seconds. Two simpler loops,
`CameraThread.run` in `FrontEnd/main_gui.py` and `processar_camera` in
`main.py`, drop the face stage and the notifications. Around the loops sit
the two `Gravador` recorders, the motion/pose detector, the face
recognizer, the camera settings dialog, the main window's grid and
fullscreen toggle, the recordings list and the user lookup.

The model is written in Dafny, one module per source file:

| module | file | source |
|---|---|---|
| `Vision` | vision.dfy | value types shared by all modules: frames, contours, poses, face boxes, the external models, the video writer and its effect log |
| `Detection` | detection.dfy | backend/detector.py |
| `Faces` | faces.dfy | backend/face_recognizer.py |
| `FrontEndRecorder` | frontend_recorder.dfy | FrontEnd/gravador.py |
| `RootRecorder` | root_recorder.dfy | gravador.py |
| `CameraStream` | camera_stream.dfy | FrontEnd/camera_stream.py |
| `MotionLoop` | motion_loop.dfy | the cascade shared by FrontEnd/main_gui.py and main.py |
| `GuiLoop` | gui_loop.dfy | `CameraThread.run` of FrontEnd/main_gui.py |
| `ConsoleLoop` | console_loop.dfy | `processar_camera` of main.py |
| `Settings` | settings.dfy | settings dialog, default config and grid placement of FrontEnd/main_gui.py |
| `MainWindow` | main_window.dfy | `MainWindow.__init__` and `toggle_fullscreen` of FrontEnd/main_gui.py |
| `Gallery` | gallery.dfy | `GalleryWidget.populate_videos` of FrontEnd/main_gui.py |
| `Auth` | auth.dfy | FrontEnd/uth_manager.py |

Each class that updates its fields in place is a Dafny `class`: the
detector, the face recognizer, both recorders, the camera thread and the
main window. Each has a pure view of its state and pure transition
functions. The user manager is a `class` too, but its users are a `const`
that only its constructor sets, because nothing in the source changes them
after loading. Every method is proved to move the view by its
transition function, and the properties are lemmas about those functions.
The capture loops are methods with `while` loops. Each is proved to match
a fold (`Replay`) of a one-tick function (`Step`) over the sequence of
ticks.

The world outside the program enters as data:

- A tick is one read of the capture: the frame or a failed read, the
  clock values the loop reads, the recording timestamp text, and for the
  FrontEnd recorder whether the video writer can be created.
- Every OpenCV, YOLO and face_recognition computation is a total function
  in `Vision.Models`.
- The bcrypt check is a function parameter `checkpw`.
- config.json and users.json are datatypes holding what the loader finds
  (missing, malformed or parsed).
- Recorder I/O (VideoWriter open, write, release) is an append-only
  effect log.
- A notification, its screenshot and its `Event.create` row together form
  one `Fire` entry in the camera thread's log.

## Model

| member | source | states |
|---|---|---|
| Detection.FilterContours | backend/detector.py:29-35 | the filtering loop returns exactly `LargeContours(found)`: the found contours with area at least 1000, in order |
| Detection.Detector.constructor | backend/detector.py:7-8 | a new detector has no stored frame |
| Detection.Detector.DetectMotion | backend/detector.py:13-35 | the current blurred frame is stored whatever the outcome; the first call of a fresh detector returns []; later calls return the large contours of the difference against the stored frame |
| Detection.Detector.DetectPoses | backend/detector.py:37-49 | the nested loop returns the in-order concatenation of every result's keypoint lists |
| Detection.LargeContoursAreLarge | backend/detector.py:29-33 | no returned contour has area below 1000 |
| Detection.LargeContoursCount | backend/detector.py:29-35 | each large contour is returned as often as it was found, and a small one never |
| Detection.LargeContoursMembers | backend/detector.py:29-35 | a contour is returned if and only if it was found and has area at least 1000 |
| Detection.LargeContoursAppend | backend/detector.py:30-33 | the filter keeps the original order: it distributes over concatenation |
| Detection.MotionIsLarge | backend/detector.py:17-35 | whatever the stored frame, the detector never reports a contour below the threshold |
| Detection.AllPosesAppend | backend/detector.py:42-47 | results are flattened in order (concatenation is preserved) |
| Detection.AllPosesEmpty | backend/detector.py:44-49 | the pose list is empty if and only if no result carries a keypoint list |
| Detection.AllPosesMembers | backend/detector.py:42-47 | a pose is reported if and only if some result carries it |
| Faces.FirstMatch | backend/face_recognizer.py:45-46 | `matches.index(True)`: an index holding True with no True before it, and None exactly when there is no True |
| Faces.Recognized | backend/face_recognizer.py:40-54 | one entry per face found, in detection order |
| Faces.Detected | backend/face_recognizer.py:37-42 | one compared face per location, each with one answer per gallery encoding |
| Faces.FaceRecognizer.constructor | backend/face_recognizer.py:8-12 | the gallery starts empty and the constructor loads the directory: the entries of the listing, or nothing when the directory is missing |
| Faces.FaceRecognizer.LoadKnownFaces | backend/face_recognizer.py:14-30 | encodings and names stay parallel; the gallery grows by exactly the listing's entries (in order) on top of what it held, and a missing directory leaves it unchanged |
| Faces.FaceRecognizer.Recognize | backend/face_recognizer.py:32-54 | the loop returns `Recognized` of the faces found, named against the current gallery |
| Faces.RecognizeAt | backend/face_recognizer.py:40-52 | the i-th result has the i-th face's box with every coordinate times 4 and the name of the lowest-index matching gallery entry, or "Desconhecido" |
| Faces.NoMatchIsUnknown | backend/face_recognizer.py:42-45 | with no matching entry, and so with an empty gallery, a face is "Desconhecido" |
| Faces.FirstMatchNames | backend/face_recognizer.py:45-47 | with several matches the name is the one at the lowest matching index, not the closest |
| Faces.EmptyGalleryAllUnknown | backend/face_recognizer.py:42-52 | an empty gallery names every face "Desconhecido" |
| Faces.EntriesAppend | backend/face_recognizer.py:20-27 | loading two listings in turn appends the second's entries after the first's |
| Faces.EntriesMembers | backend/face_recognizer.py:20-30 | a gallery entry exists if and only if some listed image file with a face yields it |
| Faces.EntryNeedsImageName | backend/face_recognizer.py:21 | a file not ending in .jpg, .png or .jpeg adds nothing |
| Faces.StemDropsExtension | backend/face_recognizer.py:21-27 | a name `stem + ext`, for each of the three extensions, is loaded under `stem` |
| FrontEndRecorder.Recorder.constructor | FrontEnd/gravador.py:9-17 | defaults 640, 360 and "camera_"; not recording, file name "", no writer, nothing written |
| FrontEndRecorder.Recorder.Start | FrontEnd/gravador.py:22-39 | the new state is `Started` of the old one, so the invariant holds |
| FrontEndRecorder.Recorder.WriteFrame | FrontEnd/gravador.py:41-46 | the new state is `Written` of the old one |
| FrontEndRecorder.Recorder.Stop | FrontEnd/gravador.py:48-56 | the new state is `Stopped` of the old one |
| FrontEndRecorder.Recorder.Finalize | FrontEnd/gravador.py:58-60 | the same effect as `parar_gravacao` |
| FrontEndRecorder.OperationsKeepInv | FrontEnd/gravador.py:15-60 | every operation keeps "recording exactly when a writer is open on the current file"; a stop leaves no writer |
| FrontEndRecorder.StartWhileRecording | FrontEnd/gravador.py:24 | starting while recording changes nothing |
| FrontEndRecorder.StartNames | FrontEnd/gravador.py:25-35 | a successful start records to "videos/" + prefix + timestamp + ".avi" with a 10 fps writer at the configured size |
| FrontEndRecorder.StartFailureDegrades | FrontEnd/gravador.py:34-39 | when the writer cannot be created the recorder is left not recording, with no writer and nothing opened |
| FrontEndRecorder.WriteNeedsRecording | FrontEnd/gravador.py:43-46 | nothing is written unless recording; a written frame is resized to (largura, altura) |
| FrontEndRecorder.StopReleasesOnce | FrontEnd/gravador.py:50-56 | a stop while recording releases the writer exactly once, opens nothing, clears writer and file name |
| FrontEndRecorder.StopIdempotent | FrontEnd/gravador.py:48-56 | stopping twice is stopping once; stopping an idle recorder changes nothing |
| FrontEndRecorder.OneFilePerEpisode | FrontEnd/gravador.py:22-56 | over any sequence of start-and-write and stop commands with every writer creatable, one file is opened per episode start and released per episode end |
| RootRecorder.Recorder.constructor | gravador.py:9-18 | defaults 640, 480 and "gravacao_"; not recording, file name "", no writer |
| RootRecorder.Recorder.Start | gravador.py:20-29 | the new state is `Started` of the old one |
| RootRecorder.Recorder.WriteFrame | gravador.py:33-35 | the new state is `Written` of the old one |
| RootRecorder.Recorder.Stop | gravador.py:37-43 | the new state is `Stopped` of the old one |
| RootRecorder.Recorder.Finalize | gravador.py:45-46 | the same effect as `parar_gravacao` |
| RootRecorder.OperationsKeepInv | gravador.py:20-43 | every operation keeps the invariant; a start always leaves the recorder recording (no failure path); a stop never does |
| RootRecorder.StartNames | gravador.py:21-29 | starting while recording changes nothing; otherwise the file is "videos/" + prefix + timestamp + ".avi" |
| RootRecorder.StopKeepsFileName | gravador.py:37-43 | a stop leaves the last file name in place, is idempotent, and changes nothing when idle |
| RootRecorder.WriteNeedsRecording | gravador.py:33-35 | nothing is written unless recording; the frame is written unresized |
| RootRecorder.OneFilePerEpisode | gravador.py:20-43 | one file opened per episode start and released per episode end, over any command sequence |
| CameraStream.CameraThread.constructor | FrontEnd/camera_stream.py:21-30 | a fresh detector, a recorder prefixed by the camera name, the face gallery loaded, `last_alert_time` 0, no fire |
| CameraStream.CameraThread.SampleTick | FrontEnd/camera_stream.py:53-70 | the cascade code moves the thread as `Sampled` says |
| CameraStream.CameraThread.DecideTick | FrontEnd/camera_stream.py:72-126 | the verdict code moves the thread as `Decided` says |
| CameraStream.CameraThread.Run | FrontEnd/camera_stream.py:32-140 | without a capture: "ERRO: SEM SINAL" emitted on `statusUpdate`, no frame label, and the recorder finalized; otherwise the loop's labels, fires, `last_alert_time` and stored frame are those of `Replay` over the ticks, and the recorder is finalized |
| CameraStream.FramesCountReads | FrontEnd/camera_stream.py:47-70 | a failed read changes nothing; the frame counter and the labels count exactly the successful reads |
| CameraStream.SamplingSchedule | FrontEnd/camera_stream.py:53-70 | the cascade runs only when the counter is a multiple of 4; on other ticks stored frame, cache and detection time are untouched |
| CameraStream.CascadeGated | FrontEnd/camera_stream.py:54-64 | faces only with poses and poses only with contours; a sample is positive if and only if it has contours; the first sample is empty |
| CameraStream.GatedKept | FrontEnd/camera_stream.py:54-68 | the gating holds of the cache at every tick |
| CameraStream.CacheRule | FrontEnd/camera_stream.py:64-68 | the three cached lists and the detection time are replaced together, by the fresh sample, exactly when a sampled tick finds motion |
| CameraStream.UnknownFacesMembers | FrontEnd/camera_stream.py:95 | the unknown faces are the cached faces named "Desconhecido" |
| CameraStream.SuspiciousRule | FrontEnd/camera_stream.py:97 | alert if and only if an unknown face is cached, or contours are cached and no face; only known faces exonerate |
| CameraStream.TickVerdict | FrontEnd/camera_stream.py:72-126 | within 10 s of the last detection and suspicious: the alert label, start then write of the frame; otherwise "MONITORANDO", `parar_gravacao` and no fire |
| CameraStream.FirstTickMonitors | FrontEnd/camera_stream.py:40-126 | the first processed frame is always "MONITORANDO" and stops the recorder |
| CameraStream.FireRule | FrontEnd/camera_stream.py:104-117 | a fire happens exactly on an alert tick more than 30 s after `last_alert_time`, which then takes the tick's time; no other tick touches either |
| CameraStream.FiresSpaced | FrontEnd/camera_stream.py:104-117 | when each tick reads the clock for the throttle test no later than for the new `last_alert_time`, any two fires of a camera are more than 30 s apart, and none is later than `last_alert_time` |
| CameraStream.AllEventFields | FrontEnd/camera_stream.py:105-116 | every event has the alert text as type, the camera name, "assets/alerta_<name>.png" as image path, and that path as the screenshot |
| CameraStream.FireVideo | FrontEnd/camera_stream.py:100-115 | an event's video path is the recorder's current file when recording, the newly named file when the recording starts on that tick, else None |
| CameraStream.RecorderFollowsCommands | FrontEnd/camera_stream.py:100-126 | the recorder is driven by one command per processed frame: start-and-write on an alert, stop otherwise |
| CameraStream.OneVideoPerEpisode | FrontEnd/camera_stream.py:100-126 | with every writer creatable, the thread opens one video per alert episode and releases one per episode end |
| CameraStream.QuietScene | FrontEnd/camera_stream.py:53-126 | when no frame pair has a large contour: every frame "MONITORANDO", no video opened, no fire |
| MotionLoop.Observe | FrontEnd/main_gui.py:139-145 | the cascade code moves detector and memory as `Sampled` says |
| MotionLoop.SampleRule | main.py:46-58 | the counter always advances by one; off the schedule nothing else changes; on it the detector stores the blurred frame and cache and detection time are replaced exactly when motion is found |
| MotionLoop.GatedKept | main.py:50-56 | poses are cached only together with motion |
| MotionLoop.FirstFrameCachesNothing | backend/detector.py:17-19 | the first frame of a fresh detector caches nothing |
| GuiLoop.CameraThread.constructor | FrontEnd/main_gui.py:124-126 | the camera name is kept |
| GuiLoop.CameraThread.Run | FrontEnd/main_gui.py:127-169 | without a capture: no label and no recorder; otherwise the labels are those of `Replay` and the recorder is finalized |
| GuiLoop.FramesCountReads | FrontEnd/main_gui.py:136-145 | the counter and the labels count exactly the successful reads |
| GuiLoop.GatedKept | FrontEnd/main_gui.py:139-144 | poses stay cached only together with motion |
| GuiLoop.TickVerdict | FrontEnd/main_gui.py:146-161 | within 10 s: "ATIVIDADE DETECTADA", start then write; otherwise "MONITORANDO" and stop; no exoneration |
| GuiLoop.RecorderFollowsCommands | FrontEnd/main_gui.py:146-161 | one recorder command per processed frame, start-and-write or stop |
| GuiLoop.OneVideoPerEpisode | FrontEnd/main_gui.py:146-169 | one video opened per activity episode and released at its end |
| ConsoleLoop.Processed | main.py:39-103 | the loop processes a prefix of the ticks, and every tick it processes read a frame |
| ConsoleLoop.ProcessedPrefix | main.py:39-103 | no processed tick before the last is a 'q'; the loop stops at a failed read, after a 'q', or at the end of the stream |
| ConsoleLoop.ProcessCamera | main.py:13-106 | a capture that does not open returns with no recorder created; otherwise the labels and finalized recorder are those of `Replay` over the processed ticks |
| ConsoleLoop.TickVerdict | main.py:61-97 | within 10 s: "STATUS: ATIVIDADE DETECTADA", start then write; otherwise "STATUS: MONITORANDO" and stop |
| ConsoleLoop.ReplayKeeps | main.py:46-58 | poses stay cached only with motion; the counter and labels count the processed frames |
| ConsoleLoop.FailedReadEnds | main.py:40-42 | nothing after a failed read is processed |
| ConsoleLoop.RecorderFollowsCommands | main.py:61-97 | one recorder command per processed frame, start-and-write or stop, and the recorder is driven by exactly those commands |
| ConsoleLoop.OneVideoPerEpisode | main.py:61-106 | one video opened per activity episode and released at its end |
| Settings.LowerText | FrontEnd/main_gui.py:274 | `lower()` maps each character, keeping the length |
| Settings.ParseId | FrontEnd/main_gui.py:272-278 | a URL if and only if the text starts (case-insensitively) with http or rtsp, kept verbatim; otherwise an int if and only if all digits, with its value; "" is None |
| Settings.DecimalRoundTrip | FrontEnd/main_gui.py:254-277 | `str(n)` is a digit string that `int` reads back as n |
| Settings.DigitsAreNotStreams | FrontEnd/main_gui.py:274-276 | a digit string is never taken for a URL |
| Settings.RenderParses | FrontEnd/main_gui.py:254-278 | unedited fields give back a None id, a non-negative int, or an http/rtsp URL |
| Settings.NegativeIndexLost | FrontEnd/main_gui.py:254-278 | a negative device number comes back as None |
| Settings.OtherTextLost | FrontEnd/main_gui.py:254-278 | a string id that is neither a URL nor digits comes back as None |
| Settings.GetSettings | FrontEnd/main_gui.py:269-284 | one entry per camera, in order, with the parsed id and name and placeholder verbatim |
| Settings.DialogFields | FrontEnd/main_gui.py:251-263 | one field triple per camera: name, "" or str(id), placeholder |
| Settings.DialogRoundTrip | FrontEnd/main_gui.py:251-284 | saving the dialog unedited gives back the settings it was opened with, when every id is representable |
| Settings.DefaultConfig | FrontEnd/main_gui.py:305 | the default config is four cameras with id None, names "Câmera 1" to "Câmera 4" and "assets/no_signal.png", and it survives the dialog |
| Settings.FallbackConfig | FrontEnd/main_gui.py:299-347 | a readable config.json is taken as it is; otherwise four disabled default cameras fill the 2x2 grid |
| Settings.PlacementCells | FrontEnd/main_gui.py:340-347 | at most four widgets; the k-th camera at row k div 2, column k mod 2 |
| MainWindow.InitUiAsWritten | FrontEnd/main_gui.py:207-337 | with the gallery class main_gui.py defines, `init_ui` raises TypeError at the face tab, whatever the settings |
| MainWindow.InitUiCorrected | FrontEnd/main_gui.py:336-347 | with the imported gallery class, `init_ui` places at most four widgets, the k-th camera at row k div 2, column k mod 2 |
| MainWindow.Window.constructor | FrontEnd/main_gui.py:290-349 | role "guest" by default; settings loaded, Settings enabled only for "admin", the widgets those of the corrected `init_ui`, all shown, none fullscreen |
| MainWindow.Window.ToggleFullscreen | FrontEnd/main_gui.py:351-360 | the two loops move the layout as `Toggled` says; settings and widgets unchanged |
| MainWindow.EnterFullscreen | FrontEnd/main_gui.py:352-356 | from the normal view the clicked widget is fullscreen and it alone is visible |
| MainWindow.LeaveFullscreen | FrontEnd/main_gui.py:357-360 | from fullscreen, whichever widget is clicked, every widget is visible and none fullscreen |
| MainWindow.TwoTogglesRestore | FrontEnd/main_gui.py:351-360 | two toggles from the normal view restore it |
| Gallery.LessEqTotal | FrontEnd/main_gui.py:232 | Python's string order is total |
| Gallery.LessEqTransitive | FrontEnd/main_gui.py:232 | Python's string order is transitive |
| Gallery.LessEqAntisymmetric | FrontEnd/main_gui.py:232 | Python's string order is antisymmetric |
| Gallery.AviFiles | FrontEnd/main_gui.py:232 | the names kept are those of the listing ending in ".avi", each as often as listed |
| Gallery.Insert | FrontEnd/main_gui.py:232 | insertion adds exactly the one name |
| Gallery.SortDescending | FrontEnd/main_gui.py:232 | sorting is a permutation |
| Gallery.InsertDescending | FrontEnd/main_gui.py:232 | insertion into a descending list keeps it descending |
| Gallery.SortDescendingSorted | FrontEnd/main_gui.py:232 | the sort's result is descending |
| Gallery.DescendingUnique | FrontEnd/main_gui.py:232 | two descending lists of the same names are equal |
| Gallery.PopulateVideosRule | FrontEnd/main_gui.py:228-233 | nothing without the directory; otherwise exactly the ".avi" names, each as often as listed, in the one descending order |
| Auth.Authenticated | FrontEnd/uth_manager.py:18-24 | a returned user has the given name and passes the check; None if and only if no entry accepts |
| Auth.RoleOf | FrontEnd/uth_manager.py:26-30 | None if and only if no entry has the name |
| Auth.AuthManager.constructor | FrontEnd/uth_manager.py:6-16 | the users are those the file yields |
| Auth.AuthManager.Authenticate | FrontEnd/uth_manager.py:18-24 | the scan returns what `Authenticated` says of the loaded users |
| Auth.AuthManager.GetRole | FrontEnd/uth_manager.py:26-30 | the scan returns what `RoleOf` says of the loaded users |
| Auth.AuthenticateFirst | FrontEnd/uth_manager.py:19-23 | the first accepting entry is returned; an earlier same-name entry with a failing password does not stop the scan |
| Auth.AuthenticateFound | FrontEnd/uth_manager.py:19-23 | the returned user is an entry of the list with every earlier entry rejecting |
| Auth.GetRoleFirst | FrontEnd/uth_manager.py:27-29 | the role is that of the first entry with the name, whatever its password |
| Auth.SignedInHasRole | FrontEnd/uth_manager.py:18-30 | a name that signs in has a role |
| Auth.NoFileNoLogin | FrontEnd/uth_manager.py:10-16 | without a usable users file nobody signs in and nobody has a role |

## Left out

- OpenCV pixel work (gray conversion, blur, absdiff, threshold, dilation, contours, areas, resizing, the RGB flip, imwrite, video encoding). Frames are opaque values; these computations are total functions in `Vision.Models`.
- YOLO inference and face_recognition's location, encoding and distance. These foreign floating-point libraries give their answers as model functions; `compare_faces` answers a sequence of booleans.
- Overlay drawing (boxes, labels, keypoint circles, colours). The status text is modelled as the label published for each frame, and the frames recorded and screenshotted are modelled without the drawings.
- The Qt user interface: widgets, styles, signals, QImage conversion, `CameraWidget`, `ReportWidget`, `LoginDialog`, the preview and capture of FrontEnd/gallery_widget.py, and starting the camera widgets' threads. The camera widgets are modelled as their grid cell, configuration and visibility.
- `open_settings` and `save_settings` write config.json and rebuild the window: file output.
- `load_settings` also writes the default back to config.json; that file output is not modelled.
- MainWindow.Window.constructor: models `init_ui` with the imported gallery class. As written, main_gui.py:337 raises TypeError before the camera grid is built (see "## Findings"). The face-gallery tab itself is not modelled.
- The `print` calls of FrontEnd/gravador.py, of `load_known_faces` in backend/face_recognizer.py, and of `processar_camera` in main.py (the start-up lines at main.py:10-11 and the error at main.py:17 when the capture does not open): console output only. Those of gravador.py are commented out.
- Threading: `QThread`, `stop`/`wait` and the `running` flag. A run is a finite sequence of ticks, and the loop ends when the ticks do.
- ConsoleLoop.ProcessCamera: the end of the tick sequence is modelled as the stream ending, in addition to a failed read and the 'q' key.
- The Telegram notifier and `asyncio.run`: network I/O. A notification is recorded as a `Fire` entry.
- The Peewee/MySQL database, `Logger` and the FastAPI routes: persistence. `Event.create` is recorded as the event of a `Fire`.
- A camera id that config.json gives as a JSON number other than an integer, or as a bool (`"id": 1.5`, say, which the dialog shows as "1.5" and saves back as null), is not modelled; ids are null, an integer or a string.
- config.json and users.json reading. A file is given as missing, malformed or parsed; a parsed users file lacking the "users" key yields no users.
- bcrypt: `checkpw` is a function parameter.
- The clock and `strftime`: each tick carries the clock values the loop reads and the timestamp text of a recording that starts on it. The clock values are exact reals, not Python floats, so floating-point rounding at the 10 s persistence and 30 s throttle boundaries is not modelled.
- Creating the "videos" folder in both recorder constructors: file-system I/O.
- Releasing the capture and destroying the OpenCV window: I/O with no effect on the modelled state.
- Settings.ParseId: `isdigit` and `lower` are modelled on ASCII only; Python also accepts other Unicode digits and case mappings.
- Faces.Stem: `os.path.splitext` is modelled only for plain file names without a directory part, as `os.listdir` yields them.
- Exceptions other than the writer failure of FrontEnd/gravador.py and the missing face in `load_known_faces` (an unreadable image file, for example) are not modelled.

## Findings

| source | as written | input that shows it | evidently intended | confidence | as-written member | corrected member |
|---|---|---|---|---|---|---|
| FrontEnd/main_gui.py:337 | the class `GalleryWidget` defined at main_gui.py:207, whose `__init__` takes only `parent`, hides the one imported at main_gui.py:19, so `GalleryWidget(camera_id=0)` raises TypeError | any settings, on the first `MainWindow()` | the imported `GalleryWidget` of FrontEnd/gallery_widget.py, which takes `camera_id` and has the `stop_camera` that `closeEvent` calls at main_gui.py:373 | not executed | MainWindow.InitUiAsWritten | MainWindow.InitUiCorrected |
