/** A camera's picture settings, the setters that check and store them, and
    the argument checks of `capture` and `record` (johnnyv/core/Camera.py). */
module Cameras {
  import opened PyValues

  // The two patterns the camera matches its string arguments against

  predicate IsAlnum(c: char) {
    ('a' <= c <= 'z') || ('A' <= c <= 'Z') || ('0' <= c <= '9')
  }

  /** `^([a-zA-Z0-9]+)$`, matched against the whole string: one or more ASCII
      letters or digits. */
  predicate IsName(s: string) {
    |s| > 0 && forall i :: 0 <= i < |s| ==> IsAlnum(s[i])
  }

  /** `^(/[a-zA-Z0-9]+)+$`, matched against the whole string, as a character
      scan: a leading '/', only '/' and letters or digits, no two '/' in a
      row and no '/' at the end. */
  predicate IsPath(s: string) {
    && |s| > 0 && s[0] == '/' && s[|s| - 1] != '/'
    && (forall i :: 0 <= i < |s| ==> s[i] == '/' || IsAlnum(s[i]))
    && (forall i :: 0 <= i < |s| - 1 ==> s[i] == '/' ==> s[i + 1] != '/')
  }

  /** The string the regular expression's grammar builds from its segments:
      "/" + segs[0] + "/" + segs[1] + ... */
  function Path(segs: seq<string>): string {
    if segs == [] then "" else "/" + segs[0] + Path(segs[1..])
  }

  /** A path built from one or more names matches the path pattern. */
  lemma {:induction false} PathOfNames(segs: seq<string>)
    requires |segs| > 0 && forall k :: 0 <= k < |segs| ==> IsName(segs[k])
    ensures IsPath(Path(segs))
  {
    var head := "/" + segs[0];
    assert IsName(segs[0]);
    if |segs| == 1 {
      assert Path(segs) == head + Path(segs[1..]);
      assert Path(segs[1..]) == "";
      assert Path(segs) == head;
    } else {
      var tail := segs[1..];
      assert forall k :: 0 <= k < |tail| ==> IsName(tail[k]) by {
        forall k | 0 <= k < |tail| ensures IsName(tail[k]) { assert tail[k] == segs[k + 1]; }
      }
      PathOfNames(tail);
      var s := Path(segs);
      var t := Path(tail);
      assert s == head + t;
      forall i | 0 <= i < |s| ensures s[i] == '/' || IsAlnum(s[i]) {
        if i == 0 {
        } else if i < |head| {
          assert s[i] == segs[0][i - 1];
        } else {
          assert s[i] == t[i - |head|];
        }
      }
      forall i | 0 <= i < |s| - 1 ensures s[i] == '/' ==> s[i + 1] != '/' {
        if i + 1 < |head| {
          assert s[i + 1] == segs[0][i];
        } else if i >= |head| {
          assert s[i] == t[i - |head|] && s[i + 1] == t[i + 1 - |head|];
        } else {
          assert s[i] == segs[0][i - 1];
        }
      }
      assert s[|s| - 1] == t[|t| - 1];
    }
  }

  /** The index of the next '/' in `s` at or after `i`, or `|s|`. */
  function NextSlash(s: string, i: nat): (r: nat)
    requires i <= |s|
    ensures i <= r <= |s| && (r < |s| ==> s[r] == '/')
    ensures forall j :: i <= j < r ==> s[j] != '/'
    decreases |s| - i
  {
    if i == |s| || s[i] == '/' then i else NextSlash(s, i + 1)
  }

  /** The names between the slashes of a path. */
  function Names(s: string): seq<string>
    requires IsPath(s)
    decreases |s|
  {
    var k := NextSlash(s, 1);
    if k == |s| then [s[1..]]
    else
      PathSuffix(s, k);
      [s[1..k]] + Names(s[k..])
  }

  /** What follows the first name of a path is a path again. */
  lemma PathSuffix(s: string, k: nat)
    requires IsPath(s) && 1 <= k < |s| && s[k] == '/'
    ensures IsPath(s[k..])
  {
    var t := s[k..];
    forall i | 0 <= i < |t| - 1 && t[i] == '/' ensures t[i + 1] != '/' {
      assert t[i] == s[k + i] && t[i + 1] == s[k + i + 1];
    }
  }

  /** Every path matching the pattern is built from the names between its
      slashes. */
  lemma {:induction false} NamesOfPath(s: string)
    requires IsPath(s)
    ensures |Names(s)| > 0 && forall k :: 0 <= k < |Names(s)| ==> IsName(Names(s)[k])
    ensures Path(Names(s)) == s
    decreases |s|
  {
    var k := NextSlash(s, 1);
    assert |s| > 1 && s[1] != '/';
    var name := s[1..k];
    assert IsName(name) by {
      forall i | 0 <= i < |name| ensures IsAlnum(name[i]) {
        assert name[i] == s[1 + i];
      }
    }
    if k == |s| {
      assert name == s[1..];
      assert Path([name]) == "/" + name + Path([]);
      assert s == [s[0]] + s[1..];
    } else {
      PathSuffix(s, k);
      NamesOfPath(s[k..]);
      var rest := Names(s[k..]);
      assert Names(s) == [name] + rest;
      assert ([name] + rest)[1..] == rest;
      assert Path([name] + rest) == "/" + name + Path(rest);
      assert s == [s[0]] + s[1..k] + s[k..];
    }
  }

  /** The path pattern accepts exactly the strings built from one or more
      names, each preceded by '/'. */
  lemma PathIff(s: string)
    ensures IsPath(s) <==> exists segs :: |segs| > 0 && (forall k :: 0 <= k < |segs| ==> IsName(segs[k])) && Path(segs) == s
  {
    if IsPath(s) {
      NamesOfPath(s);
    }
    if exists segs :: |segs| > 0 && (forall k :: 0 <= k < |segs| ==> IsName(segs[k])) && Path(segs) == s {
      var segs :| |segs| > 0 && (forall k :: 0 <= k < |segs| ==> IsName(segs[k])) && Path(segs) == s;
      PathOfNames(segs);
    }
  }

  /** The picture and video files go to `path + "/" + name + extension`
      (johnnyv/core/RaspberryPi.py); for an accepted path and file name, the
      part before the extension is again a path one name deeper. */
  lemma TargetIsPath(path: string, name: string)
    requires IsPath(path) && IsName(name)
    ensures IsPath(path + "/" + name)
  {
    NamesOfPath(path);
    var segs := Names(path) + [name];
    PathAppend(Names(path), name);
    PathOfNames(segs);
  }

  lemma {:induction false} PathAppend(segs: seq<string>, name: string)
    ensures Path(segs + [name]) == Path(segs) + "/" + name
  {
    if segs == [] {
      assert Path([name]) == "/" + name + Path([]);
    } else {
      PathAppend(segs[1..], name);
      assert (segs + [name])[1..] == segs[1..] + [name];
    }
  }

  /** The settings read from the configuration for one camera. */
  datatype CameraSpec = CameraSpec(
    resolution: string, resolutionSet: seq<string>,
    brightness: int, contrast: int, sharpness: int, saturation: int, rotation: int,
    hflip: bool, vflip: bool,
    pictureExtension: string, videoExtension: string,
    picturePath: string, videoPath: string)

  class Camera {
    const cameraId: string
    var resolution: string
    const resolutionSet: seq<string>
    var brightness: int
    var contrast: int
    var sharpness: int
    var saturation: int
    var rotation: int
    var hflip: bool
    var vflip: bool
    const pictureExtension: string
    const videoExtension: string
    var picturePath: string
    var videoPath: string

    /** Takes every setting from the camera's configuration entry, unchecked. */
    constructor (cameraId: string, spec: CameraSpec)
      ensures this.cameraId == cameraId && Settings() == spec
    {
      this.cameraId := cameraId;
      resolution := spec.resolution;
      resolutionSet := spec.resolutionSet;
      brightness := spec.brightness;
      contrast := spec.contrast;
      sharpness := spec.sharpness;
      saturation := spec.saturation;
      rotation := spec.rotation;
      hflip := spec.hflip;
      vflip := spec.vflip;
      pictureExtension := spec.pictureExtension;
      videoExtension := spec.videoExtension;
      picturePath := spec.picturePath;
      videoPath := spec.videoPath;
    }

    /** All settings at once. */
    function Settings(): CameraSpec
      reads this
    {
      CameraSpec(resolution, resolutionSet, brightness, contrast, sharpness, saturation, rotation,
                 hflip, vflip, pictureExtension, videoExtension, picturePath, videoPath)
    }

    /** `capture`'s checks: a string of letters and digits is handed on with
        the file it names; anything else is answered with False (None). */
    method Capture(fileName: Value) returns (target: Option<string>)
      ensures target.Some? <==> fileName.VStr? && IsName(fileName.s)
      ensures target.Some? ==> target.value == picturePath + "/" + fileName.s + pictureExtension
      ensures target.Some? && IsPath(picturePath) ==> IsPath(picturePath + "/" + fileName.s)
    {
      if fileName.VStr? {
        if IsName(fileName.s) {
          if IsPath(picturePath) {
            TargetIsPath(picturePath, fileName.s);
          }
          return Some(picturePath + "/" + fileName.s + pictureExtension);
        }
        return None;
      }
      return None;
    }

    /** `record`'s checks: the name as for `capture`, and then a positive
        integer duration (a bool counts as an integer). */
    method Record(fileName: Value, duration: Value) returns (target: Option<string>)
      ensures target.Some? <==> fileName.VStr? && IsName(fileName.s) && IsNumber(duration) && AsInt(duration) > 0
      ensures target.Some? ==> target.value == videoPath + "/" + fileName.s + videoExtension
      ensures target.Some? && IsPath(videoPath) ==> IsPath(videoPath + "/" + fileName.s)
    {
      if fileName.VStr? {
        if IsName(fileName.s) {
          if IsNumber(duration) && AsInt(duration) > 0 {
            if IsPath(videoPath) {
              TargetIsPath(videoPath, fileName.s);
            }
            return Some(videoPath + "/" + fileName.s + videoExtension);
          }
          return None;
        }
        return None;
      }
      return None;
    }

    /** Stores a listed resolution. A string that is not listed makes the
        diagnostic concatenate a string with the list, which raises TypeError;
        a non-string is answered with False. */
    method SetResolution(v: Value) returns (r: Outcome<bool>)
      modifies this`resolution
      ensures v.VStr? && v.s in resolutionSet ==> r == Return(true) && resolution == v.s
      ensures v.VStr? && v.s !in resolutionSet ==> r == Raise(TypeError) && resolution == old(resolution)
      ensures !v.VStr? ==> r == Return(false) && resolution == old(resolution)
    {
      if v.VStr? {
        if v.s in resolutionSet {
          resolution := v.s;
          return Return(true);
        }
        return Raise(TypeError);
      }
      return Return(false);
    }

    /** Stores an integer in [0, 100] as the brightness. */
    method SetBrightness(v: Value) returns (r: bool)
      modifies this`brightness
      ensures r <==> IsNumber(v) && 0 <= AsInt(v) <= 100
      ensures brightness == if r then AsInt(v) else old(brightness)
    {
      if IsNumber(v) {
        if 0 <= AsInt(v) <= 100 {
          brightness := AsInt(v);
          return true;
        }
        return false;
      }
      return false;
    }

    /** Accepts an integer in [-100, 100] as the contrast, but stores it in
        the brightness; the contrast itself never changes. */
    method SetContrast(v: Value) returns (r: bool)
      modifies this`brightness
      ensures r <==> IsNumber(v) && -100 <= AsInt(v) <= 100
      ensures brightness == if r then AsInt(v) else old(brightness)
    {
      if IsNumber(v) {
        if -100 <= AsInt(v) <= 100 {
          brightness := AsInt(v);
          return true;
        }
        return false;
      }
      return false;
    }

    /** Accepts an integer in [-100, 100] as the sharpness, but stores it in
        the saturation; the sharpness itself never changes. */
    method SetSharpness(v: Value) returns (r: bool)
      modifies this`saturation
      ensures r <==> IsNumber(v) && -100 <= AsInt(v) <= 100
      ensures saturation == if r then AsInt(v) else old(saturation)
    {
      if IsNumber(v) {
        if -100 <= AsInt(v) <= 100 {
          saturation := AsInt(v);
          return true;
        }
        return false;
      }
      return false;
    }

    /** Stores an integer in [-100, 100] as the saturation. */
    method SetSaturation(v: Value) returns (r: bool)
      modifies this`saturation
      ensures r <==> IsNumber(v) && -100 <= AsInt(v) <= 100
      ensures saturation == if r then AsInt(v) else old(saturation)
    {
      if IsNumber(v) {
        if -100 <= AsInt(v) <= 100 {
          saturation := AsInt(v);
          return true;
        }
        return false;
      }
      return false;
    }

    /** Stores a rotation of 0, 90, 180 or 270 degrees. */
    method SetRotation(v: Value) returns (r: bool)
      modifies this`rotation
      ensures r <==> IsNumber(v) && AsInt(v) in {0, 90, 180, 270}
      ensures rotation == if r then AsInt(v) else old(rotation)
    {
      if IsNumber(v) {
        if AsInt(v) in [0, 90, 180, 270] {
          rotation := AsInt(v);
          return true;
        }
        return false;
      }
      return false;
    }

    /** Stores a boolean as the horizontal flip. */
    method SetHflip(v: Value) returns (r: bool)
      modifies this`hflip
      ensures r <==> v.VBool?
      ensures hflip == if r then v.b else old(hflip)
    {
      if v.VBool? {
        hflip := v.b;
        return true;
      }
      return false;
    }

    /** Stores a boolean as the vertical flip. */
    method SetVflip(v: Value) returns (r: bool)
      modifies this`vflip
      ensures r <==> v.VBool?
      ensures vflip == if r then v.b else old(vflip)
    {
      if v.VBool? {
        vflip := v.b;
        return true;
      }
      return false;
    }

    /** Stores a string matching the path pattern as the picture directory. */
    method SetPicturePath(v: Value) returns (r: bool)
      modifies this`picturePath
      ensures r <==> v.VStr? && IsPath(v.s)
      ensures picturePath == if r then v.s else old(picturePath)
    {
      if v.VStr? {
        if IsPath(v.s) {
          picturePath := v.s;
          return true;
        }
        return false;
      }
      return false;
    }

    /** Stores a string matching the path pattern as the video directory. */
    method SetVideoPath(v: Value) returns (r: bool)
      modifies this`videoPath
      ensures r <==> v.VStr? && IsPath(v.s)
      ensures videoPath == if r then v.s else old(videoPath)
    {
      if v.VStr? {
        if IsPath(v.s) {
          videoPath := v.s;
          return true;
        }
        return false;
      }
      return false;
    }
  }
}
