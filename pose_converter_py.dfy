/**
 * `poseConverter.py`: converting Blender pose exports to Three.js poses by a
 * per-bone offset between the two base poses. Directory listings and parsed
 * JSON files are inputs; reading and writing files is not modelled.
 */
module PoseConverterPy {
  import opened Wrappers
  import opened Poses
  import Text

  /** A Blender bone entry: `{rotation_x, rotation_y, rotation_z}`. */
  datatype BlenderRot = BlenderRot(rotationX: real, rotationY: real, rotationZ: real)

  type BlenderPose = map<string, BlenderRot>

  /** `calculate_offset`: for each bone in both bases, threejs minus blender on each axis. */
  function CalculateOffset(blenderBase: BlenderPose, threejsBase: Pose): (offset: Pose)
    ensures offset.Keys == blenderBase.Keys * threejsBase.Keys
    ensures forall b :: b in offset ==>
      offset[b].x == threejsBase[b].x - blenderBase[b].rotationX &&
      offset[b].y == threejsBase[b].y - blenderBase[b].rotationY &&
      offset[b].z == threejsBase[b].z - blenderBase[b].rotationZ
  {
    map b | b in blenderBase && b in threejsBase ::
      Rot(threejsBase[b].x - blenderBase[b].rotationX,
          threejsBase[b].y - blenderBase[b].rotationY,
          threejsBase[b].z - blenderBase[b].rotationZ)
  }

  /** `convert_angles`: the bones that have an offset, each rotation plus its offset. */
  function ConvertAngles(blenderAngles: BlenderPose, offset: Pose): (converted: Pose)
    ensures converted.Keys == blenderAngles.Keys * offset.Keys
    ensures forall b :: b in converted ==>
      converted[b].x == blenderAngles[b].rotationX + offset[b].x &&
      converted[b].y == blenderAngles[b].rotationY + offset[b].y &&
      converted[b].z == blenderAngles[b].rotationZ + offset[b].z
  {
    map b | b in blenderAngles && b in offset ::
      Rot(blenderAngles[b].rotationX + offset[b].x,
          blenderAngles[b].rotationY + offset[b].y,
          blenderAngles[b].rotationZ + offset[b].z)
  }

  /**
   * Converting the Blender base with the offset reproduces the Three.js base
   * on every bone the two bases share (in exact arithmetic).
   */
  lemma BaseRoundTrip(blenderBase: BlenderPose, threejsBase: Pose)
    ensures ConvertAngles(blenderBase, CalculateOffset(blenderBase, threejsBase))
      == map b | b in blenderBase && b in threejsBase :: threejsBase[b]
  {
    var c := ConvertAngles(blenderBase, CalculateOffset(blenderBase, threejsBase));
    var r := map b | b in blenderBase && b in threejsBase :: threejsBase[b];
    assert c.Keys == r.Keys;
    forall b | b in c ensures c[b] == r[b] {
      assert c[b] == Rot(threejsBase[b].x, threejsBase[b].y, threejsBase[b].z);
    }
  }

  /** `find_file_case_insensitive`: the first listed name equal to `name` ignoring case. */
  method FindFileCaseInsensitive(listing: seq<string>, name: string) returns (found: Option<string>)
    ensures found.None? <==> forall i :: 0 <= i < |listing| ==> Text.Lower(listing[i]) != Text.Lower(name)
    ensures found.Some? ==>
      exists i :: (0 <= i < |listing| && listing[i] == found.value &&
                   Text.Lower(found.value) == Text.Lower(name) &&
                   forall j :: 0 <= j < i ==> Text.Lower(listing[j]) != Text.Lower(name))
  {
    var i := 0;
    while i < |listing|
      invariant 0 <= i <= |listing|
      invariant forall j :: 0 <= j < i ==> Text.Lower(listing[j]) != Text.Lower(name)
    {
      if Text.Lower(listing[i]) == Text.Lower(name) {
        return Some(listing[i]);
      }
      i := i + 1;
    }
    return None;
  }

  /** Python's `str.replace`: every non-overlapping occurrence, left to right. */
  function ReplaceAll(s: string, pattern: string, replacement: string): (r: string)
    requires pattern != []
    ensures |replacement| == |pattern| ==> |r| == |s|
    ensures Avoids(s, pattern[0]) ==> r == s
    decreases |s|
  {
    if |s| < |pattern| then s
    else if s[..|pattern|] == pattern then replacement + ReplaceAll(s[|pattern|..], pattern, replacement)
    else [s[0]] + ReplaceAll(s[1..], pattern, replacement)
  }

  /** No character of `s` is `c`. */
  predicate Avoids(s: string, c: char) {
    forall i :: 0 <= i < |s| ==> s[i] != c
  }

  const BlenderSuffix: string := "Blender.json"
  const ThreeJsSuffix: string := "ThreeJS.json"

  /** The output name of `convert_pose`: as long as the input, and a name without any `B` is left as it is. */
  function OutputName(blenderPoseFile: string): (r: string)
    ensures |r| == |blenderPoseFile|
    ensures Avoids(blenderPoseFile, 'B') ==> r == blenderPoseFile
  {
    ReplaceAll(blenderPoseFile, BlenderSuffix, ThreeJsSuffix)
  }

  /** A text without `B` ahead of the suffix gets exactly the suffix replaced. */
  lemma OutputNameReplacesSuffix(stem: string)
    requires Avoids(stem, 'B')
    ensures OutputName(stem + BlenderSuffix) == stem + ThreeJsSuffix
  {
    ReplaceTrailing(stem, BlenderSuffix, ThreeJsSuffix);
  }

  /** Text that never shows the pattern's first character, then the pattern: only that is replaced. */
  lemma {:induction false} ReplaceTrailing(stem: string, pattern: string, replacement: string)
    requires pattern != [] && Avoids(stem, pattern[0])
    ensures ReplaceAll(stem + pattern, pattern, replacement) == stem + replacement
  {
    if stem == [] {
      assert stem + pattern == pattern;
      ReplaceWhole(pattern, replacement);
    } else {
      var s := stem + pattern;
      assert s[0] == stem[0] && s[1..] == stem[1..] + pattern;
      ReplaceSkips(s, pattern, replacement);
      assert Avoids(stem[1..], pattern[0]);
      ReplaceTrailing(stem[1..], pattern, replacement);
      assert stem == [stem[0]] + stem[1..];
    }
  }

  lemma ReplaceWhole(pattern: string, replacement: string)
    requires pattern != []
    ensures ReplaceAll(pattern, pattern, replacement) == replacement
  {
    assert pattern[..|pattern|] == pattern && pattern[|pattern|..] == [];
  }

  lemma ReplaceSkips(s: string, pattern: string, replacement: string)
    requires pattern != [] && |pattern| <= |s| && s[0] != pattern[0]
    ensures ReplaceAll(s, pattern, replacement) == [s[0]] + ReplaceAll(s[1..], pattern, replacement)
  {
    assert s[..|pattern|][0] == s[0];
  }

  /** The filter of `process_all_files`. */
  predicate Selected(filename: string, blenderBaseFile: string) {
    Text.EndsWith(filename, BlenderSuffix) && filename != blenderBaseFile
  }

  /** `os.path.join(directory, name)`. */
  function Join(directory: string, name: string): string {
    if directory == [] then name
    else if directory[|directory| - 1] == '/' then directory + name
    else directory + "/" + name
  }

  const BlenderBaseName: string := "A Pose Blender.json"

  /**
   * The base export is excluded only when the base argument is its bare name.
   * The later entry blocks pass a joined path, which a bare listing name never
   * equals, so the base export itself is then converted too.
   */
  lemma BaseExclusionNeedsBareName(directory: string)
    requires directory != []
    ensures !Selected(BlenderBaseName, BlenderBaseName)
    ensures Selected(BlenderBaseName, Join(directory, BlenderBaseName))
  {
    assert BlenderBaseName[|BlenderBaseName| - |BlenderSuffix|..] == BlenderSuffix;
    assert |Join(directory, BlenderBaseName)| > |BlenderBaseName|;
  }

  /** One `convert_pose` write: the output name and the converted pose. */
  datatype Write = Write(file: string, pose: Pose)

  /**
   * The writes of `process_all_files`' loop over a listing. A file that
   * cannot be read raises and ends the run (`failed`); writes made before stay.
   */
  function Conversions(listing: seq<string>, blenderBaseFile: string, offset: Pose,
                       read: string -> Option<BlenderPose>): (r: (seq<Write>, bool))
    ensures |r.0| <= |SelectedFiles(listing, blenderBaseFile)|
    ensures !r.1 ==> |r.0| == |SelectedFiles(listing, blenderBaseFile)|
    decreases |listing|
  {
    if listing == [] then ([], false)
    else
      var f := listing[0];
      if !Selected(f, blenderBaseFile) then Conversions(listing[1..], blenderBaseFile, offset, read)
      else if read(f).None? then ([], true)
      else
        var rest := Conversions(listing[1..], blenderBaseFile, offset, read);
        ([Write(OutputName(f), ConvertAngles(read(f).value, offset))] + rest.0, rest.1)
  }

  /** Every write comes from a selected listing entry, converted with the offset. */
  lemma {:induction false} ConversionsSelected(listing: seq<string>, blenderBaseFile: string, offset: Pose,
                                               read: string -> Option<BlenderPose>)
    ensures forall w :: w in Conversions(listing, blenderBaseFile, offset, read).0 ==>
      exists f :: f in listing && Selected(f, blenderBaseFile) && read(f).Some? &&
        w == Write(OutputName(f), ConvertAngles(read(f).value, offset))
  {
    if listing != [] {
      ConversionsSelected(listing[1..], blenderBaseFile, offset, read);
      forall w | w in Conversions(listing[1..], blenderBaseFile, offset, read).0
        ensures exists f :: (f in listing && Selected(f, blenderBaseFile) && read(f).Some? &&
                             w == Write(OutputName(f), ConvertAngles(read(f).value, offset)))
      {
        var f :| f in listing[1..] && Selected(f, blenderBaseFile) && read(f).Some? &&
          w == Write(OutputName(f), ConvertAngles(read(f).value, offset));
        assert f in listing;
      }
    }
  }

  /** The listing entries `process_all_files` converts, in listing order. */
  function SelectedFiles(listing: seq<string>, blenderBaseFile: string): (r: seq<string>)
    ensures forall f :: f in r <==> f in listing && Selected(f, blenderBaseFile)
    decreases |listing|
  {
    if listing == [] then []
    else if Selected(listing[0], blenderBaseFile) then [listing[0]] + SelectedFiles(listing[1..], blenderBaseFile)
    else SelectedFiles(listing[1..], blenderBaseFile)
  }

  /** `out` holds one write per name of `files`, in order, each converted with the offset. */
  predicate WritesFor(files: seq<string>, out: seq<Write>, offset: Pose, read: string -> Option<BlenderPose>)
    requires forall f :: f in files ==> read(f).Some?
  {
    |out| == |files| &&
    forall i :: 0 <= i < |files| ==> out[i] == Write(OutputName(files[i]), ConvertAngles(read(files[i]).value, offset))
  }

  lemma WritesForCons(f: string, files: seq<string>, out: seq<Write>, offset: Pose,
                      read: string -> Option<BlenderPose>)
    requires read(f).Some? && (forall g :: g in files ==> read(g).Some?)
    requires WritesFor(files, out, offset, read)
    ensures WritesFor([f] + files, [Write(OutputName(f), ConvertAngles(read(f).value, offset))] + out, offset, read)
  {
  }

  /** With every file readable, each selected file is written once, in listing order. */
  lemma {:induction false} ConversionsInOrder(listing: seq<string>, blenderBaseFile: string, offset: Pose,
                                              read: string -> Option<BlenderPose>)
    requires forall f :: f in listing ==> read(f).Some?
    ensures !Conversions(listing, blenderBaseFile, offset, read).1
    ensures WritesFor(SelectedFiles(listing, blenderBaseFile), Conversions(listing, blenderBaseFile, offset, read).0,
                      offset, read)
    decreases |listing|
  {
    if listing != [] {
      var f, tail := listing[0], listing[1..];
      assert f in listing;
      assert forall g :: g in tail ==> g in listing;
      ConversionsInOrder(tail, blenderBaseFile, offset, read);
      if Selected(f, blenderBaseFile) {
        WritesForCons(f, SelectedFiles(tail, blenderBaseFile), Conversions(tail, blenderBaseFile, offset, read).0,
                      offset, read);
      }
    }
  }
}
