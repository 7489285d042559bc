/**
 * The director's configuration file (`Scene::readConfigFile`, src/scene.cpp).
 *
 * The file is line oriented. Every line loses all its whitespace first; blank
 * lines and `#` comments are skipped; a line starting with `[` must be one of
 * seven section labels; any other line is `key=value` and is interpreted by
 * the section it sits in. The first problem aborts the whole read.
 *
 * The specification is the pair ParseLine / ParseLines; class Scene reads a
 * file imperatively and is proved to compute exactly ParseLines.
 */
module SceneConfig {
  import opened Wrappers
  import opened CppText

  /** The section a line belongs to; NoSection before the first label. */
  datatype Section =
    | NoSection
    | TopCameras
    | LateralCameras
    | Out
    | General
    | CropCoords
    | Weights
    | DisplayAnalysis

  /** The labels the reader accepts, in the order it tries them. */
  const Labels: seq<string> :=
    ["[TOP_CAMERAS]", "[LATERAL_CAMERAS]", "[OUT]", "[GENERAL]", "[CROP_COORDS]", "[WEIGHTS]", "[DISPLAY_ANALYSIS]"]

  /** The section each label of `Labels` opens. */
  const LabelSections: seq<Section> :=
    [TopCameras, LateralCameras, Out, General, CropCoords, Weights, DisplayAnalysis]

  /** The four integers of a `(a,b,c,d)` crop tuple, in file order. */
  datatype Crop = Crop(first: int, second: int, third: int, fourth: int)

  /** A camera as the configuration describes it: name, video source and the per-camera settings. */
  datatype CameraEntry = CameraEntry(
    name: string,
    source: string,
    crop: Option<Crop>,          // None until a [CROP_COORDS] line names the camera
    weight: Option<int>,         // None until a [WEIGHTS] line names the camera
    displayAnalysis: bool)

  /** Everything the reader can set: the Scene's fields plus the capture-wide alpha. */
  datatype Settings = Settings(
    topCaps: seq<CameraEntry>,
    lateralCaps: seq<CameraEntry>,
    outPath: string,
    outWidth: int,
    outHeight: int,
    displayOutput: bool,
    smoothing: int,
    fpsToFile: bool,
    displayAllCaptures: bool,
    fpsFilePath: string,
    alpha: Option<Double>)       // None while the file has not set `alpha`

  /** Why reading the configuration failed (each is a thrown exception in the source). */
  datatype ConfigError =
    | ConfigFileUnreadable
    | UndefinedLabel(line: string)
    | CannotOpenStream(source: string)
    | WeightOutOfRange(value: string, line: string)
    | SmoothNotPositive(value: string, line: string)
    | AlphaOutOfRange(value: string, line: string)
    | Library(cause: CppError)

  /** The values the Scene constructor sets before reading the file. */
  function DefaultSettings(): (s: Settings)
    ensures s.topCaps == [] && s.lateralCaps == []
    ensures s.smoothing == 20 && s.outWidth == 1920 && s.outHeight == 1080
  {
    Settings([], [], "./out/out.mp4", 1920, 1080, false, 20, false, false, "../out/FPS.csv", None)
  }

  function NewEntry(name: string, source: string): CameraEntry {
    CameraEntry(name, source, None, None, false)
  }

  /** The per-camera setting a [CROP_COORDS], [WEIGHTS] or [DISPLAY_ANALYSIS] line applies. */
  datatype Update = SetCrop(crop: Crop) | SetWeight(weight: int) | ShowAnalysis

  function Apply(u: Update, e: CameraEntry): (r: CameraEntry)
    ensures r.name == e.name && r.source == e.source
  {
    match u
    case SetCrop(c) => e.(crop := Some(c))
    case SetWeight(w) => e.(weight := Some(w))
    case ShowAnalysis => e.(displayAnalysis := true)
  }

  /** Applies `u` to every camera called `key`; the others, and the order, stay as they are. */
  function UpdateNamed(caps: seq<CameraEntry>, key: string, u: Update): (r: seq<CameraEntry>)
    ensures |r| == |caps|
    ensures forall k :: 0 <= k < |caps| ==> r[k] == if caps[k].name == key then Apply(u, caps[k]) else caps[k]
  {
    seq(|caps|, k requires 0 <= k < |caps| => if caps[k].name == key then Apply(u, caps[k]) else caps[k])
  }

  /** `std::stoi`, with its exceptions carried as configuration errors. */
  function Int(text: string): (r: Result<int, ConfigError>)
    ensures r.Ok? <==> Stoi(text).Ok?
    ensures r.Ok? ==> r.value == Stoi(text).value
  {
    match Stoi(text)
    case Ok(v) => Ok(v)
    case Err(e) => Err(Library(e))
  }

  /** `std::string::substr`, with its exception carried as a configuration error. */
  function Sub(text: string, pos: nat, count: nat): (r: Result<string, ConfigError>)
    ensures r.Ok? <==> Substr(text, pos, count).Ok?
    ensures r.Ok? ==> r.value == Substr(text, pos, count).value
  {
    match Substr(text, pos, count)
    case Ok(t) => Ok(t)
    case Err(e) => Err(Library(e))
  }

  /** The section of the first label from index `k` on that equals `line`, if any. */
  function LookupLabel(line: string, k: nat): (r: Option<Section>)
    requires k <= |Labels|
    ensures r.Some? <==> line in Labels[k..]
    decreases |Labels| - k
  {
    if k == |Labels| then None
    else if line == Labels[k] then Some(LabelSections[k])
    else LookupLabel(line, k + 1)
  }

  /**
   * Key and value of an entry line: the text before and after the first `=`.
   * Without an `=`, find returns npos, `npos + 1` wraps to 0, and both are the whole line.
   */
  function SplitKeyValue(line: string): (kv: (string, string))
    ensures StdString(line) && '=' in line ==> '=' !in kv.0 && line == kv.0 + "=" + kv.1
    ensures StdString(line) && '=' !in line ==> kv.0 == line && kv.1 == line
  {
    var p := Find(line, '=', 0);
    var key := Substr(line, 0, p);
    var value := Substr(line, SizeAdd(p, 1), NPOS);
    assert value.Ok? by {
      if p < |line| {
        assert SizeAdd(p, 1) <= p + 1;
      } else {
        assert SizeAdd(p, 1) == 0;
      }
    }
    assert StdString(line) && p < |line| ==> '=' !in key.value && line == key.value + "=" + value.value by {
      if StdString(line) && p < |line| {
        assert key.value == line[..p];
        assert value.value == line[p + 1..];
        assert line == line[..p] + "=" + line[p + 1..];
        forall k | 0 <= k < p ensures line[..p][k] != '=' {
        }
      }
    }
    (key.value, value.value)
  }

  // ---------------------------------------------------------------------------
  // [CROP_COORDS] values: `(a,b,c,d)`
  // ---------------------------------------------------------------------------

  /**
   * One comma-terminated field starting at `pos`: `stoi(value.substr(pos, nextPos - pos))`
   * with `nextPos = value.find(",", pos)`, and the position after the comma
   * (`nextPos + 1`, which wraps to 0 when there is no comma).
   */
  function CropField(value: string, pos: nat): Result<(int, nat), ConfigError> {
    var v :- ReadField(value, pos);
    Ok((v, SizeAdd(Find(value, ',', pos), 1)))
  }

  /** The number in the field at `pos`: `stoi` of the text from `pos` up to the next comma. */
  function ReadField(value: string, pos: nat): Result<int, ConfigError> {
    var text :- Sub(value, pos, SizeSub(Find(value, ',', pos), pos));
    Int(text)
  }

  /** Where field `j` of the tuple starts: 1 (past the `(`), then one past each comma found. */
  function FieldStart(value: string, j: nat): nat {
    if j == 0 then 1 else SizeAdd(Find(value, ',', FieldStart(value, j - 1)), 1)
  }

  /** Field `j` as `stoi` reads it: the text from its start up to the next comma. */
  function FieldValue(value: string, j: nat): Result<int, ConfigError> {
    ReadField(value, FieldStart(value, j))
  }

  /** The first `k` fields, read from position 1 (just past the `(`), and the position after them. */
  function CropFields(value: string, k: nat): (r: Result<(seq<int>, nat), ConfigError>)
    ensures r.Ok? ==> |r.value.0| == k
  {
    if k == 0 then Ok(([], 1))
    else
      var prev :- CropFields(value, k - 1);
      var field :- CropField(value, prev.1);
      Ok((prev.0 + [field.0], field.1))
  }

  /** When `k > 0` fields read, the first `k - 1` read too and the last is the field read where they stopped. */
  lemma CropFieldsPrev(value: string, k: nat, xs: seq<int>, p: nat)
    requires k > 0 && CropFields(value, k) == Ok((xs, p))
    ensures CropFields(value, k - 1).Ok?
    ensures CropFields(value, k - 1).value.0 == xs[..k - 1]
    ensures ReadField(value, CropFields(value, k - 1).value.1) == Ok(xs[k - 1])
  {
  }

  /** When `k` fields read and the field where they stop reads as `x`, `k + 1` fields read. */
  lemma CropFieldsExtend(value: string, k: nat, xs: seq<int>, p: nat, x: int)
    requires CropFields(value, k) == Ok((xs, p)) && ReadField(value, p) == Ok(x)
    ensures CropFields(value, k + 1).Ok?
  {
  }

  /** Reading `k` fields stops where field `k` starts. */
  lemma {:induction false} CropFieldsPosition(value: string, k: nat, xs: seq<int>, p: nat)
    requires CropFields(value, k) == Ok((xs, p))
    ensures p == FieldStart(value, k)
  {
    if k > 0 {
      CropFieldsPrev(value, k, xs, p);
      var prev := CropFields(value, k - 1).value;
      CropFieldsPosition(value, k - 1, prev.0, prev.1);
    }
  }

  /** The `j`-th of the `k` values read is field `j` as `stoi` reads it. */
  lemma {:induction false} CropFieldsValues(value: string, k: nat, xs: seq<int>, p: nat)
    requires CropFields(value, k) == Ok((xs, p))
    ensures forall j :: 0 <= j < k ==> FieldValue(value, j) == Ok(xs[j])
  {
    if k > 0 {
      CropFieldsPrev(value, k, xs, p);
      var prev := CropFields(value, k - 1).value;
      CropFieldsValues(value, k - 1, prev.0, prev.1);
      CropFieldsPosition(value, k - 1, prev.0, prev.1);
      forall j | 0 <= j < k
        ensures FieldValue(value, j) == Ok(xs[j])
      {
        if j < k - 1 {
          assert xs[j] == prev.0[j];
        }
      }
    }
  }

  /** When each of the first `k` fields reads, reading `k` fields succeeds. */
  lemma {:induction false} CropFieldsAllRead(value: string, k: nat)
    requires forall j :: 0 <= j < k ==> FieldValue(value, j).Ok?
    ensures CropFields(value, k).Ok?
  {
    if k > 0 {
      CropFieldsAllRead(value, k - 1);
      var prev := CropFields(value, k - 1).value;
      CropFieldsPosition(value, k - 1, prev.0, prev.1);
      assert FieldValue(value, k - 1).Ok?;
      CropFieldsExtend(value, k - 1, prev.0, prev.1, FieldValue(value, k - 1).value);
    }
  }

  /**
   * Reading `k` fields succeeds exactly when each of the `k` fields reads; then the `j`-th
   * value is field `j` as `stoi` reads it, and reading stops where field `k` would start.
   */
  lemma CropFieldsReadEachField(value: string, k: nat)
    ensures CropFields(value, k).Ok? <==> forall j :: 0 <= j < k ==> FieldValue(value, j).Ok?
    ensures CropFields(value, k).Ok? ==> CropFields(value, k).value.1 == FieldStart(value, k)
    ensures CropFields(value, k).Ok? ==>
      forall j :: 0 <= j < k ==> FieldValue(value, j) == Ok(CropFields(value, k).value.0[j])
  {
    if CropFields(value, k).Ok? {
      var r := CropFields(value, k).value;
      CropFieldsPosition(value, k, r.0, r.1);
      CropFieldsValues(value, k, r.0, r.1);
    } else if forall j :: 0 <= j < k ==> FieldValue(value, j).Ok? {
      CropFieldsAllRead(value, k);
    }
  }

  /** The whole tuple: three comma-terminated fields, then the text up to the first `)`. */
  function CropSpec(value: string): Result<Crop, ConfigError> {
    var fields :- CropFields(value, 3);
    var pos := fields.1;
    var text :- Sub(value, pos, SizeSub(Find(value, ')', 0), pos));
    var last :- Int(text);
    Ok(Crop(fields.0[0], fields.0[1], fields.0[2], last))
  }

  /** How a crop tuple is written in the file. */
  function CropText(c: Crop): string {
    "(" + IntText(c.first) + "," + IntText(c.second) + "," + IntText(c.third) + "," + IntText(c.fourth) + ")"
  }

  // ---------------------------------------------------------------------------
  // One line, and the whole file
  // ---------------------------------------------------------------------------

  /** [TOP_CAMERAS] / [LATERAL_CAMERAS]: probe the source, then append a camera to `caps`. */
  function AddCamera(caps: seq<CameraEntry>, key: string, value: string,
                     canOpen: string -> bool): (r: Result<seq<CameraEntry>, ConfigError>)
    ensures r.Err? <==> !canOpen(value)
    ensures r.Err? ==> r.error == CannotOpenStream(value)
    ensures r.Ok? ==> r.value == caps + [NewEntry(key, value)]
  {
    if !canOpen(value) then Err(CannotOpenStream(value))
    else Ok(caps + [NewEntry(key, value)])
  }

  /** [CROP_COORDS]: parse the tuple and set it on every top camera called `key`. */
  function ApplyCrop(s: Settings, key: string, value: string): Result<Settings, ConfigError> {
    var c :- CropSpec(value);
    Ok(s.(topCaps := UpdateNamed(s.topCaps, key, SetCrop(c))))
  }

  /** [WEIGHTS]: a weight in [1,5] for every top camera called `key`. */
  function ApplyWeight(s: Settings, line: string, key: string, value: string): Result<Settings, ConfigError> {
    var w :- Int(value);
    if w < 1 || w > 5 then Err(WeightOutOfRange(value, line))
    else Ok(s.(topCaps := UpdateNamed(s.topCaps, key, SetWeight(w))))
  }

  /** [OUT]: output path and frame size. */
  function ApplyOut(s: Settings, key: string, value: string): Result<Settings, ConfigError> {
    if key == "outPath" then Ok(s.(outPath := value))
    else if key == "width" then var w :- Int(value); Ok(s.(outWidth := w))
    else if key == "height" then var h :- Int(value); Ok(s.(outHeight := h))
    else Ok(s)
  }

  /** [GENERAL]: display flags, smoothing window, FPS file and the blending factor alpha. */
  function ApplyGeneral(s: Settings, line: string, key: string, value: string,
                        stod: string -> Option<Double>): Result<Settings, ConfigError> {
    if key == "displayOutput" then Ok(if value == "true" then s.(displayOutput := true) else s)
    else if key == "smooth" then
      var t :- Int(value);
      if t <= 0 then Err(SmoothNotPositive(value, line)) else Ok(s.(smoothing := t))
    else if key == "fpsToFile" then Ok(if value == "true" then s.(fpsToFile := true) else s)
    else if key == "displayAllCaptures" then Ok(if value == "true" then s.(displayAllCaptures := true) else s)
    else if key == "fpsFilePath" then Ok(s.(fpsFilePath := value))
    else if key == "alpha" then
      match stod(value)
      case None => Err(Library(StodInvalidArgument))
      case Some(a) =>
        if AtMost(a, -1.0) || AtLeast(a, 1.0) then Err(AlphaOutOfRange(value, line)) else Ok(s.(alpha := Some(a)))
    else Ok(s)
  }

  /** [DISPLAY_ANALYSIS]: `key=true` turns the analysis view on for every top camera called `key`. */
  function ApplyDisplayAnalysis(s: Settings, key: string, value: string): Result<Settings, ConfigError> {
    if value == "true" then Ok(s.(topCaps := UpdateNamed(s.topCaps, key, ShowAnalysis))) else Ok(s)
  }

  /** The effect of an entry line `key=value` (`line` is the whitespace-free line) in section `sec`. */
  function ApplyEntry(sec: Section, s: Settings, line: string, key: string, value: string,
                      canOpen: string -> bool, stod: string -> Option<Double>): Result<Settings, ConfigError>
  {
    match sec
    case NoSection => Ok(s)
    case TopCameras =>
      var caps :- AddCamera(s.topCaps, key, value, canOpen);
      Ok(s.(topCaps := caps))
    case LateralCameras =>
      var caps :- AddCamera(s.lateralCaps, key, value, canOpen);
      Ok(s.(lateralCaps := caps))
    case CropCoords => ApplyCrop(s, key, value)
    case Weights => ApplyWeight(s, line, key, value)
    case DisplayAnalysis => ApplyDisplayAnalysis(s, key, value)
    case Out => ApplyOut(s, key, value)
    case General => ApplyGeneral(s, line, key, value, stod)
  }

  /** One raw line of the file, read in section `sec`: the new section and settings, or the error. */
  function ParseLine(sec: Section, s: Settings, raw: string,
                     canOpen: string -> bool, stod: string -> Option<Double>): Result<(Section, Settings), ConfigError>
  {
    var line := EraseSpaces(raw);
    if line == [] || line[0] == '#' then Ok((sec, s))
    else if line[0] == '[' then
      match LookupLabel(line, 0)
      case Some(l) => Ok((l, s))
      case None => Err(UndefinedLabel(line))
    else
      var kv := SplitKeyValue(line);
      var s' :- ApplyEntry(sec, s, line, kv.0, kv.1, canOpen, stod);
      Ok((sec, s'))
  }

  /** All lines in order, stopping at the first error. */
  function ParseLines(sec: Section, s: Settings, lines: seq<string>,
                      canOpen: string -> bool, stod: string -> Option<Double>): Result<(Section, Settings), ConfigError>
    decreases |lines|
  {
    if lines == [] then Ok((sec, s))
    else
      var next :- ParseLine(sec, s, lines[0], canOpen, stod);
      ParseLines(next.0, next.1, lines[1..], canOpen, stod)
  }

  /**
   * The settings in force when reading stops: after the last line, or just before the
   * first line that fails (a failing line throws before it changes anything).
   */
  function SettingsAtStop(sec: Section, s: Settings, lines: seq<string>,
                          canOpen: string -> bool, stod: string -> Option<Double>): Settings
    decreases |lines|
  {
    if lines == [] then s
    else
      match ParseLine(sec, s, lines[0], canOpen, stod)
      case Ok(next) => SettingsAtStop(next.0, next.1, lines[1..], canOpen, stod)
      case Err(_) => s
  }

  /** Reading a whole file (None: the file could not be opened) on top of the settings `s`. */
  function ReadConfig(s: Settings, file: Option<seq<string>>,
                      canOpen: string -> bool, stod: string -> Option<Double>): Result<Settings, ConfigError>
  {
    match file
    case None => Err(ConfigFileUnreadable)
    case Some(lines) =>
      var r :- ParseLines(NoSection, s, lines, canOpen, stod);
      Ok(r.1)
  }
}
