/**
 * The face recognizer of backend/face_recognizer.py: a gallery of known
 * encodings and names loaded from a directory of images, and the naming of
 * each face found in a frame by the first gallery entry that matches.
 */
module Faces {
  import opened Vision

  /** The label of a face that matches no gallery entry. */
  const Unknown: string := "Desconhecido"

  /** One face found in the frame: its small-frame box and compare_faces' answers. */
  datatype DetectedFace = DetectedFace(location: Box, matches: seq<bool>)

  /** One entry of recognize's result: `{"name": ..., "box": ...}`. */
  datatype FaceMatch = FaceMatch(name: string, box: Box)

  /** One gallery entry, as load_known_faces appends it to its two lists. */
  datatype Entry = Entry(encoding: Encoding, name: string)

  /** A directory entry: its file name and the encodings face_encodings finds in it. */
  datatype ImageFile = ImageFile(filename: string, encodings: seq<Encoding>)

  /** `matches.index(True)`, or None when no entry is True. */
  function FirstMatch(matches: seq<bool>): (r: Option<nat>)
    ensures r.Some? ==> r.value < |matches| && matches[r.value]
    ensures r.Some? ==> forall j :: 0 <= j < r.value ==> !matches[j]
    ensures r.None? <==> forall j :: 0 <= j < |matches| ==> !matches[j]
  {
    if matches == [] then None
    else if matches[0] then Some(0)
    else match FirstMatch(matches[1..])
      case None => None
      case Some(k) => Some(k + 1)
  }

  /** The small-frame box scaled back to the frame: every coordinate times 4. */
  function Scale(b: Box): Box
  {
    Box(b.top * 4, b.right * 4, b.bottom * 4, b.left * 4)
  }

  /** compare_faces answers one boolean per gallery name for every face. */
  predicate Aligned(names: seq<string>, faces: seq<DetectedFace>)
  {
    forall i :: 0 <= i < |faces| ==> |faces[i].matches| == |names|
  }

  /** The name of one face: the first matching gallery name, else Unknown. */
  function NameOf(names: seq<string>, matches: seq<bool>): string
    requires |matches| == |names|
  {
    match FirstMatch(matches)
    case None => Unknown
    case Some(k) => names[k]
  }

  /** recognize's result for the faces found in a frame, in detection order. */
  function Recognized(names: seq<string>, faces: seq<DetectedFace>): (r: seq<FaceMatch>)
    requires Aligned(names, faces)
    ensures |r| == |faces|
  {
    if faces == [] then []
    else
      var last := faces[|faces| - 1];
      Recognized(names, faces[..|faces| - 1]) + [FaceMatch(NameOf(names, last.matches), Scale(last.location))]
  }

  /** The faces found in a frame, each compared against the gallery's encodings. */
  function Detected(frame: Frame, known: seq<Encoding>, m: Models): (r: seq<DetectedFace>)
    requires WellFormed(m)
    ensures |r| == |m.locate(frame)|
    ensures forall i :: 0 <= i < |r| ==> r[i].location == m.locate(frame)[i] && |r[i].matches| == |known|
  {
    var locations := m.locate(frame);
    seq(|locations|, i requires 0 <= i < |locations| =>
      DetectedFace(locations[i], m.compare(known, m.encode(frame, locations[i]))))
  }

  /** `filename.endswith((".jpg", ".png", ".jpeg"))`. */
  predicate IsImageName(filename: string)
  {
    EndsWith(filename, ".jpg") || EndsWith(filename, ".png") || EndsWith(filename, ".jpeg")
  }

  /** The index of the last '.' of a name, if it has one. */
  function LastDot(s: string): (r: Option<nat>)
    ensures r.Some? ==> r.value < |s| && s[r.value] == '.'
    ensures r.Some? ==> forall j :: r.value < j < |s| ==> s[j] != '.'
    ensures r.None? ==> forall j :: 0 <= j < |s| ==> s[j] != '.'
  {
    if s == [] then None
    else if s[|s| - 1] == '.' then Some(|s| - 1)
    else LastDot(s[..|s| - 1])
  }

  /** Some character of `s` is not a dot. */
  predicate HasNonDot(s: string)
  {
    exists j :: 0 <= j < |s| && s[j] != '.'
  }

  /**
   * `os.path.splitext(filename)[0]` for a name without a directory part:
   * the name up to its last dot, unless everything before that dot is dots
   * (a leading-dot name such as ".jpg" has no extension).
   */
  function Stem(filename: string): string
  {
    match LastDot(filename)
    case None => filename
    case Some(k) => if HasNonDot(filename[..k]) then filename[..k] else filename
  }

  /** The entry a file adds to the gallery, or None when it is skipped. */
  function EntryOf(f: ImageFile): Option<Entry>
  {
    if IsImageName(f.filename) && |f.encodings| > 0 then Some(Entry(f.encodings[0], Stem(f.filename)))
    else None
  }

  /** The entries loading a directory listing appends, in listing order. */
  function Entries(files: seq<ImageFile>): seq<Entry>
  {
    if files == [] then []
    else
      var init := Entries(files[..|files| - 1]);
      match EntryOf(files[|files| - 1])
      case None => init
      case Some(e) => init + [e]
  }

  /** Two parallel lists read index by index as one list of entries. */
  function Zip(encodings: seq<Encoding>, names: seq<string>): (g: seq<Entry>)
    requires |encodings| == |names|
    ensures |g| == |names|
    ensures forall i :: 0 <= i < |g| ==> g[i] == Entry(encodings[i], names[i])
  {
    seq(|names|, i requires 0 <= i < |names| => Entry(encodings[i], names[i]))
  }

  class FaceRecognizer {
    /** `known_face_encodings` and `known_face_names`, index by index. */
    var encodings: seq<Encoding>
    var names: seq<string>

    ghost predicate Valid()
      reads this
    {
      |encodings| == |names|
    }

    /** The gallery as a list of entries. */
    function Gallery(): seq<Entry>
      reads this
      requires Valid()
    {
      Zip(encodings, names)
    }

    /**
     * `__init__` followed by its call of load_known_faces; `directoryExists`
     * and `files` stand for os.path.exists and os.listdir of the directory.
     */
    constructor (directoryExists: bool, files: seq<ImageFile>)
      ensures Valid()
      ensures Gallery() == if directoryExists then Entries(files) else []
    {
      encodings := [];
      names := [];
      new;
      LoadKnownFaces(directoryExists, files);
    }

    /**
     * load_known_faces: appends, for each image file in which a face is
     * found, its first encoding and its stem, in the same step. A missing
     * directory leaves the gallery as it was.
     */
    method LoadKnownFaces(directoryExists: bool, files: seq<ImageFile>)
      requires Valid()
      modifies this
      ensures Valid()
      ensures Gallery() == old(Gallery()) + (if directoryExists then Entries(files) else [])
    {
      if !directoryExists {
        return;
      }
      ghost var start := Gallery();
      var i := 0;
      while i < |files|
        invariant 0 <= i <= |files|
        invariant Valid()
        invariant Gallery() == start + Entries(files[..i])
      {
        assert files[..i + 1][..i] == files[..i];
        var f := files[i];
        if IsImageName(f.filename) {
          if |f.encodings| > 0 {
            ghost var before := Gallery();
            encodings := encodings + [f.encodings[0]];
            names := names + [Stem(f.filename)];
            assert Gallery() == before + [Entry(f.encodings[0], Stem(f.filename))];
          }
          // otherwise face_encodings(image)[0] raised IndexError: the file is skipped
        }
        i := i + 1;
      }
      assert files[..i] == files;
    }

    /** recognize: one named, rescaled box per face found in the frame. */
    method Recognize(frame: Frame, m: Models) returns (recognized: seq<FaceMatch>)
      requires Valid() && WellFormed(m)
      ensures recognized == Recognized(names, Detected(frame, encodings, m))
    {
      var locations := m.locate(frame);
      ghost var faces := Detected(frame, encodings, m);
      recognized := [];
      var i := 0;
      while i < |locations|
        invariant 0 <= i <= |locations|
        invariant recognized == Recognized(names, faces[..i])
      {
        assert faces[..i + 1][..i] == faces[..i];
        var matches := m.compare(encodings, m.encode(frame, locations[i]));
        var name := Unknown;
        var first := FirstMatch(matches);
        if first.Some? {
          name := names[first.value];
        }
        var b := locations[i];
        recognized := recognized + [FaceMatch(name, Box(b.top * 4, b.right * 4, b.bottom * 4, b.left * 4))];
        i := i + 1;
      }
      assert faces[..i] == faces;
    }
  }

  /**
   * recognize answers one entry per face, in order, with the face's box
   * scaled by 4 and the name of the lowest-index matching gallery entry.
   */
  lemma {:induction false} RecognizeAt(names: seq<string>, faces: seq<DetectedFace>, i: nat)
    requires Aligned(names, faces) && i < |faces|
    ensures |Recognized(names, faces)| == |faces|
    ensures Recognized(names, faces)[i].box == Scale(faces[i].location)
    ensures Recognized(names, faces)[i].name == NameOf(names, faces[i].matches)
  {
    var init := faces[..|faces| - 1];
    assert Aligned(names, init);
    if i < |faces| - 1 {
      RecognizeAt(names, init, i);
    } else if init != [] {
      RecognizeAt(names, init, 0);
    }
  }

  /** With no gallery entry matching (an empty gallery in particular), a face is Unknown. */
  lemma NoMatchIsUnknown(names: seq<string>, matches: seq<bool>)
    requires |matches| == |names|
    requires names == [] || forall j :: 0 <= j < |matches| ==> !matches[j]
    ensures NameOf(names, matches) == Unknown
  {
  }

  /**
   * When several gallery entries match, the face takes the name at the
   * lowest matching index, whatever the later matches are.
   */
  lemma FirstMatchNames(names: seq<string>, matches: seq<bool>, k: nat)
    requires |matches| == |names| && k < |matches|
    requires matches[k] && forall j :: 0 <= j < k ==> !matches[j]
    ensures NameOf(names, matches) == names[k]
  {
  }

  /** With an empty gallery every face in the frame is Unknown. */
  lemma EmptyGalleryAllUnknown(faces: seq<DetectedFace>)
    requires Aligned([], faces)
    ensures forall i :: 0 <= i < |faces| ==> Recognized([], faces)[i].name == Unknown
  {
    forall i | 0 <= i < |faces|
      ensures Recognized([], faces)[i].name == Unknown
    {
      RecognizeAt([], faces, i);
    }
  }

  /** Loading two listings in turn appends the second's entries on top of the first's. */
  lemma {:induction false} EntriesAppend(a: seq<ImageFile>, b: seq<ImageFile>)
    ensures Entries(a + b) == Entries(a) + Entries(b)
  {
    if b == [] {
      assert a + b == a;
    } else {
      var init := b[..|b| - 1];
      EntriesAppend(a, init);
      assert (a + b)[..|a + b| - 1] == a + init;
      assert (a + b)[|a + b| - 1] == b[|b| - 1];
    }
  }

  /**
   * Every gallery entry comes from an image file with a face in it, and
   * every such file contributes its entry.
   */
  lemma {:induction false} EntriesMembers(files: seq<ImageFile>, e: Entry)
    ensures e in Entries(files) <==> exists i :: 0 <= i < |files| && EntryOf(files[i]) == Some(e)
  {
    if files != [] {
      var init := files[..|files| - 1];
      EntriesMembers(init, e);
      assert forall i :: 0 <= i < |init| ==> init[i] == files[i];
      if EntryOf(files[|files| - 1]) == Some(e) {
        assert e in Entries(files);
      }
    }
  }

  /** Only names with one of the three extensions are loaded. */
  lemma EntryNeedsImageName(f: ImageFile)
    requires !IsImageName(f.filename)
    ensures EntryOf(f) == None
  {
  }

  /** The last dot of `pre + "." + rest`, when `rest` has no dot, is the one after `pre`. */
  lemma {:induction false} LastDotBefore(pre: string, rest: string)
    requires forall j :: 0 <= j < |rest| ==> rest[j] != '.'
    ensures LastDot(pre + "." + rest) == Some(|pre|)
  {
    var s := pre + "." + rest;
    if rest == [] {
      assert s[|s| - 1] == '.';
    } else {
      var init := rest[..|rest| - 1];
      LastDotBefore(pre, init);
      assert s[|s| - 1] != '.';
      assert s[..|s| - 1] == pre + "." + init;
    }
  }

  /**
   * The stored name of an image file is its name without the extension,
   * provided something other than dots precedes the extension.
   */
  lemma StemDropsExtension(stem: string, ext: string)
    requires ext == ".jpg" || ext == ".png" || ext == ".jpeg"
    requires HasNonDot(stem)
    ensures IsImageName(stem + ext)
    ensures Stem(stem + ext) == stem
  {
    var s := stem + ext;
    assert s[|s| - |ext|..] == ext;
    assert s == stem + "." + ext[1..];
    LastDotBefore(stem, ext[1..]);
    assert s[..|stem|] == stem;
  }
}
