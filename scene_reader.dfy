/**
 * `Scene::readConfigFile` as the imperative reader it is: a loop over the lines of the
 * file that keeps the current section in a local and writes the Scene's fields as it
 * goes. Each method is proved to do what the functions of SceneConfig say.
 */
module SceneReader {
  import opened Wrappers
  import opened CppText
  import opened SceneConfig

  /**
   * `err` and `after` report the outcome `r` of one entry: on success the new settings are
   * in force and nothing is reported; on failure nothing changed and the error is reported.
   */
  predicate Reports(r: Result<Settings, ConfigError>, before: Settings, after: Settings, err: Option<ConfigError>) {
    match r
    case Ok(s') => err == None && after == s'
    case Err(e) => err == Some(e) && after == before
  }

  /** One comma-terminated field from `pos`: find the comma, cut the text before it, stoi it. */
  method ReadCropField(value: string, pos: nat) returns (r: Result<(int, nat), ConfigError>)
    ensures r == CropField(value, pos)
  {
    var nextPos := Find(value, ',', pos);
    var text := Sub(value, pos, SizeSub(nextPos, pos));
    if text.Err? {
      return Err(text.error);
    }
    var v := Int(text.value);
    if v.Err? {
      return Err(v.error);
    }
    r := Ok((v.value, SizeAdd(nextPos, 1)));
  }

  /**
   * `std::stoi` on the three comma-terminated fields of a `(a,b,c,d)` tuple, then on the
   * text up to the first `)`, into a four-element buffer.
   */
  method ParseCropCoords(value: string) returns (r: Result<Crop, ConfigError>)
    ensures r == CropSpec(value)
  {
    var cropValues := new int[4];
    var pos: nat := 1;
    for i := 0 to 3
      invariant CropFields(value, i) == Ok((cropValues[..i], pos))
    {
      var field := ReadCropField(value, pos);
      if field.Err? {
        FieldsFail(value, i + 1, field.error);
        return Err(field.error);
      }
      cropValues[i] := field.value.0;
      assert cropValues[..i + 1] == cropValues[..i] + [field.value.0];
      pos := field.value.1;
    }
    var text := Sub(value, pos, SizeSub(Find(value, ')', 0), pos));
    if text.Err? {
      return Err(text.error);
    }
    var last := Int(text.value);
    if last.Err? {
      return Err(last.error);
    }
    cropValues[3] := last.value;
    r := Ok(Crop(cropValues[0], cropValues[1], cropValues[2], cropValues[3]));
  }

  /** Once a field fails, the tuple fails with that error. */
  lemma {:induction false} FieldsFail(value: string, k: nat, e: ConfigError)
    requires k <= 3 && CropFields(value, k) == Err(e)
    ensures CropSpec(value) == Err(e)
    decreases 3 - k
  {
    if k < 3 {
      assert CropFields(value, k + 1) == Err(e);
      FieldsFail(value, k + 1, e);
    }
  }

  /** The state of a Scene that the configuration file sets (`Capture::alpha` included). */
  class Scene {
    var topCaps: seq<CameraEntry>
    var lateralCaps: seq<CameraEntry>
    var outPath: string
    var outWidth: int
    var outHeight: int
    var displayOutput: bool
    var smoothing: int
    var fpsToFile: bool
    var displayAllCaptures: bool
    var fpsFilePath: string
    var alpha: Option<Double>

    /** The fields, as a value. */
    function Current(): Settings
      reads this
    {
      Settings(topCaps, lateralCaps, outPath, outWidth, outHeight, displayOutput, smoothing,
               fpsToFile, displayAllCaptures, fpsFilePath, alpha)
    }

    /** The defaults the constructor sets before it reads the file. */
    constructor ()
      ensures Current() == DefaultSettings()
    {
      topCaps := [];
      lateralCaps := [];
      outWidth := 1920;
      outHeight := 1080;
      outPath := "./out/out.mp4";
      displayOutput := false;
      smoothing := 20;
      fpsToFile := false;
      displayAllCaptures := false;
      fpsFilePath := "../out/FPS.csv";
      alpha := None;
    }

    /** Applies `u` to every top camera called `key`, one camera at a time. */
    method UpdateTopCaps(key: string, u: Update)
      modifies this
      ensures Current() == old(Current()).(topCaps := UpdateNamed(old(topCaps), key, u))
    {
      var k := 0;
      while k < |topCaps|
        invariant 0 <= k <= |topCaps| == |old(topCaps)|
        invariant forall j :: 0 <= j < |topCaps| ==>
          topCaps[j] == if j < k then UpdateNamed(old(topCaps), key, u)[j] else old(topCaps)[j]
        invariant Current().(topCaps := old(topCaps)) == old(Current())
      {
        if topCaps[k].name == key {
          topCaps := topCaps[k := Apply(u, topCaps[k])];
        }
        k := k + 1;
      }
    }

    /** A [CROP_COORDS] entry. */
    method ReadCropLine(key: string, value: string) returns (err: Option<ConfigError>)
      modifies this
      ensures Reports(ApplyCrop(old(Current()), key, value), old(Current()), Current(), err)
    {
      var crop := ParseCropCoords(value);
      if crop.Err? {
        return Some(crop.error);
      }
      UpdateTopCaps(key, SetCrop(crop.value));
      err := None;
    }

    /** A [WEIGHTS] entry: the weight must lie in [1,5]. */
    method ReadWeightLine(line: string, key: string, value: string) returns (err: Option<ConfigError>)
      modifies this
      ensures Reports(ApplyWeight(old(Current()), line, key, value), old(Current()), Current(), err)
    {
      var w := Int(value);
      if w.Err? {
        return Some(w.error);
      }
      if w.value < 1 || w.value > 5 {
        return Some(WeightOutOfRange(value, line));
      }
      UpdateTopCaps(key, SetWeight(w.value));
      err := None;
    }

    /** An [OUT] entry. */
    method ReadOutLine(key: string, value: string) returns (err: Option<ConfigError>)
      modifies this
      ensures Reports(ApplyOut(old(Current()), key, value), old(Current()), Current(), err)
    {
      if key == "outPath" {
        outPath := value;
      }
      if key == "width" {
        var w := Int(value);
        if w.Err? {
          return Some(w.error);
        }
        outWidth := w.value;
      }
      if key == "height" {
        var h := Int(value);
        if h.Err? {
          return Some(h.error);
        }
        outHeight := h.value;
      }
      err := None;
    }

    /** A [GENERAL] entry: `smooth` must be positive and `alpha` inside ]-1,1[. */
    method ReadGeneralLine(line: string, key: string, value: string, stod: string -> Option<Double>)
      returns (err: Option<ConfigError>)
      modifies this
      ensures Reports(ApplyGeneral(old(Current()), line, key, value, stod), old(Current()), Current(), err)
    {
      if key == "displayOutput" && value == "true" {
        displayOutput := true;
      }
      if key == "smooth" {
        var tmp := Int(value);
        if tmp.Err? {
          return Some(tmp.error);
        }
        if tmp.value <= 0 {
          return Some(SmoothNotPositive(value, line));
        }
        smoothing := tmp.value;
      }
      if key == "fpsToFile" && value == "true" {
        fpsToFile := true;
      }
      if key == "displayAllCaptures" && value == "true" {
        displayAllCaptures := true;
      }
      if key == "fpsFilePath" {
        fpsFilePath := value;
      }
      if key == "alpha" {
        var a := stod(value);
        if a.None? {
          return Some(Library(StodInvalidArgument));
        }
        if AtMost(a.value, -1.0) || AtLeast(a.value, 1.0) {
          return Some(AlphaOutOfRange(value, line));
        }
        alpha := a;
      }
      err := None;
    }

    /** An entry line `key=value` in section `sec`. */
    method ReadEntry(sec: Section, line: string, key: string, value: string,
                     canOpen: string -> bool, stod: string -> Option<Double>) returns (err: Option<ConfigError>)
      modifies this
      ensures Reports(ApplyEntry(sec, old(Current()), line, key, value, canOpen, stod), old(Current()), Current(), err)
    {
      if sec == TopCameras || sec == LateralCameras {
        if !canOpen(value) {
          return Some(CannotOpenStream(value));
        }
      }
      if sec == TopCameras {
        topCaps := topCaps + [NewEntry(key, value)];
      }
      if sec == LateralCameras {
        lateralCaps := lateralCaps + [NewEntry(key, value)];
      }
      if sec == CropCoords {
        err := ReadCropLine(key, value);
        return;
      }
      if sec == Weights {
        err := ReadWeightLine(line, key, value);
        return;
      }
      if sec == DisplayAnalysis {
        if value == "true" {
          UpdateTopCaps(key, ShowAnalysis);
        }
        return None;
      }
      if sec == Out {
        err := ReadOutLine(key, value);
        return;
      }
      if sec == General {
        err := ReadGeneralLine(line, key, value, stod);
        return;
      }
      err := None;
    }

    /** One raw line of the file, read in section `sec`. */
    method ReadLine(sec: Section, raw: string, canOpen: string -> bool, stod: string -> Option<Double>)
      returns (next: Section, err: Option<ConfigError>)
      modifies this
      ensures match ParseLine(sec, old(Current()), raw, canOpen, stod)
              case Ok(st) => err == None && next == st.0 && Current() == st.1
              case Err(e) => err == Some(e) && Current() == old(Current())
    {
      var line := EraseSpaces(raw);
      next := sec;
      if line == [] || line[0] == '#' {
        return next, None;
      }
      if line[0] == '[' {
        var k := 0;
        while k < |Labels|
          invariant 0 <= k <= |Labels|
          invariant LookupLabel(line, 0) == LookupLabel(line, k)
        {
          if line == Labels[k] {
            return LabelSections[k], None;
          }
          k := k + 1;
        }
        return next, Some(UndefinedLabel(line));
      }
      var kv := SplitKeyValue(line);
      err := ReadEntry(sec, line, kv.0, kv.1, canOpen, stod);
    }

    /**
     * Reads the file (None: it could not be opened) line by line. The fields end up as
     * the settings in force when reading stopped, and the first error is reported.
     */
    method ReadConfigFile(file: Option<seq<string>>, canOpen: string -> bool, stod: string -> Option<Double>)
      returns (err: Option<ConfigError>)
      modifies this
      ensures match ReadConfig(old(Current()), file, canOpen, stod)
              case Ok(s) => err == None && Current() == s
              case Err(e) => err == Some(e)
      ensures file.None? ==> Current() == old(Current())
      ensures file.Some? ==> Current() == SettingsAtStop(NoSection, old(Current()), file.value, canOpen, stod)
    {
      if file.None? {
        return Some(ConfigFileUnreadable);
      }
      var lines := file.value;
      var currentParsing := NoSection;
      ghost var start := Current();
      var i := 0;
      while i < |lines|
        invariant 0 <= i <= |lines|
        invariant ParseLines(NoSection, start, lines, canOpen, stod)
               == ParseLines(currentParsing, Current(), lines[i..], canOpen, stod)
        invariant SettingsAtStop(NoSection, start, lines, canOpen, stod)
               == SettingsAtStop(currentParsing, Current(), lines[i..], canOpen, stod)
      {
        assert lines[i..][0] == lines[i] && lines[i..][1..] == lines[i + 1..];
        currentParsing, err := ReadLine(currentParsing, lines[i], canOpen, stod);
        if err.Some? {
          return;
        }
        i := i + 1;
      }
      assert lines[i..] == [];
      err := None;
    }
  }
}
