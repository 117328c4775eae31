/**
 * The main window of FrontEnd/main_gui.py as far as its own state goes: the
 * loaded settings, the camera widgets laid out on the grid, and the
 * fullscreen toggle over the widgets' visibility. Widgets are named by
 * their position in `camera_widgets`.
 */
module MainWindow {
  import opened Vision
  import Settings

  /** `fullscreen_widget` and each camera widget's visibility. */
  datatype Layout = Layout(fullscreen: Option<nat>, visible: seq<bool>)

  /** Every widget shown and none fullscreen. */
  predicate AllShown(l: Layout)
  {
    l.fullscreen == None && forall k :: 0 <= k < |l.visible| ==> l.visible[k]
  }

  /**
   * `toggle_fullscreen`: with no fullscreen widget the clicked one becomes
   * fullscreen and every other one is hidden (the clicked one is left as
   * it was); otherwise every widget is shown and the fullscreen one cleared.
   */
  function Toggled(l: Layout, clicked: nat): Layout
    requires clicked < |l.visible|
  {
    if l.fullscreen == None then
      Layout(Some(clicked), seq(|l.visible|, k requires 0 <= k < |l.visible| => k == clicked && l.visible[k]))
    else
      Layout(None, seq(|l.visible|, k => true))
  }

  /** A gallery class, by the keyword parameters its `__init__` accepts. */
  datatype GalleryClass = GalleryClass(keywords: set<string>)

  /** The `GalleryWidget` that main_gui.py defines itself, whose `__init__` takes only `parent`. */
  const LocalGallery: GalleryClass := GalleryClass({"parent"})

  /** The `GalleryWidget` of gallery_widget.py, whose `__init__` takes `camera_id` and `parent`. */
  const ImportedGallery: GalleryClass := GalleryClass({"camera_id", "parent"})

  /** What `init_ui` ends with: an exception, or the camera widgets it placed. */
  datatype InitOutcome = Raised(error: string) | Built(widgets: seq<((nat, nat), Settings.Camera)>)

  /**
   * `init_ui`, with `gallery` the class the name `GalleryWidget` is bound
   * to: the recordings tab is built without arguments, the face tab with
   * `camera_id=0`, which raises `TypeError` when the class does not take
   * that keyword; only after both tabs is the camera grid filled.
   */
  function InitUi(gallery: GalleryClass, settings: seq<Settings.Camera>): InitOutcome
  {
    if "camera_id" in gallery.keywords then Built(Settings.Placement(settings)) else Raised("TypeError")
  }

  /**
   * As written, the class defined in main_gui.py hides the imported one,
   * so `init_ui` raises before it places any camera widget, whatever the
   * settings.
   */
  lemma InitUiAsWritten(settings: seq<Settings.Camera>)
    ensures InitUi(LocalGallery, settings) == Raised("TypeError")
  {
  }

  /**
   * With the imported gallery class, `init_ui` places one widget per
   * configured camera, at most four, each in its own cell of the 2x2 grid.
   */
  lemma InitUiCorrected(settings: seq<Settings.Camera>)
    ensures InitUi(ImportedGallery, settings).Built?
    ensures var w := InitUi(ImportedGallery, settings).widgets;
      && w == Settings.Placement(settings)
      && |w| == (if |settings| < 4 then |settings| else 4)
      && forall k :: 0 <= k < |w| ==> w[k] == ((k / 2, k % 2), settings[k])
  {
    assert "camera_id" in ImportedGallery.keywords;
    Settings.PlacementCells(settings);
  }

  class Window {
    /** Whether the Settings action is enabled: only for the admin role. */
    const settingsEnabled: bool
    var settings: seq<Settings.Camera>
    /** The grid cell and configuration of each camera widget. */
    var widgets: seq<((nat, nat), Settings.Camera)>
    var fullscreen: Option<nat>
    var visible: seq<bool>

    function State(): Layout
      reads this
    {
      Layout(fullscreen, visible)
    }

    ghost predicate Valid()
      reads this
    {
      |visible| == |widgets| && (fullscreen.Some? ==> fullscreen.value < |widgets|)
    }

    /**
     * `__init__`: `load_settings` then `init_ui`, which places one widget
     * per configured camera on the grid, at most four, all shown. The
     * face-gallery tab is built from the imported gallery class (see
     * `InitUiAsWritten` for the class main_gui.py binds instead). The role
     * defaults to the guest's.
     */
    constructor (file: Settings.ConfigFile, role: string := "guest")
      ensures Valid()
      ensures settingsEnabled <==> role == "admin"
      ensures settings == Settings.LoadSettings(file)
      ensures InitUi(ImportedGallery, settings) == Built(widgets)
      ensures widgets == Settings.Placement(settings)
      ensures AllShown(State())
    {
      settingsEnabled := role == "admin";
      var loaded := Settings.LoadSettings(file);
      var placed := Settings.Placement(loaded);
      settings := loaded;
      widgets := placed;
      fullscreen := None;
      visible := seq(|placed|, k => true);
    }

    method ToggleFullscreen(clicked: nat)
      requires Valid() && clicked < |visible|
      modifies this
      ensures Valid()
      ensures widgets == old(widgets) && settings == old(settings)
      ensures State() == Toggled(old(State()), clicked)
    {
      ghost var before := visible;
      if fullscreen == None {
        fullscreen := Some(clicked);
        var k := 0;
        while k < |visible|
          invariant 0 <= k <= |visible| == |before|
          invariant forall j :: 0 <= j < k ==> visible[j] == (j == clicked && before[j])
          invariant forall j :: k <= j < |visible| ==> visible[j] == before[j]
          invariant fullscreen == Some(clicked) && widgets == old(widgets) && settings == old(settings)
        {
          if k != clicked {
            visible := visible[k := false];
          }
          k := k + 1;
        }
      } else {
        var k := 0;
        while k < |visible|
          invariant 0 <= k <= |visible| == |before|
          invariant forall j :: 0 <= j < k ==> visible[j]
          invariant widgets == old(widgets) && settings == old(settings)
        {
          visible := visible[k := true];
          k := k + 1;
        }
        fullscreen := None;
      }
    }
  }

  /** From the normal view: the clicked widget goes fullscreen and every other one is hidden. */
  lemma EnterFullscreen(l: Layout, clicked: nat)
    requires AllShown(l) && clicked < |l.visible|
    ensures var l' := Toggled(l, clicked);
      && l'.fullscreen == Some(clicked) && |l'.visible| == |l.visible|
      && forall k :: 0 <= k < |l.visible| ==> (l'.visible[k] <==> k == clicked)
  {
  }

  /** From fullscreen, whichever widget is clicked: every widget is shown again. */
  lemma LeaveFullscreen(l: Layout, clicked: nat)
    requires l.fullscreen.Some? && clicked < |l.visible|
    ensures AllShown(Toggled(l, clicked)) && |Toggled(l, clicked).visible| == |l.visible|
  {
  }

  /** Two toggles from the normal view restore it. */
  lemma TwoTogglesRestore(l: Layout, first: nat, second: nat)
    requires AllShown(l) && first < |l.visible| && second < |l.visible|
    ensures Toggled(Toggled(l, first), second) == l
  {
    var l2 := Toggled(Toggled(l, first), second);
    assert l2.visible == l.visible;
  }
}
