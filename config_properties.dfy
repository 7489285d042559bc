/**
 * What the configuration reader promises, stated over ParseLine / ParseLines:
 * which lines are skipped, which labels open a section, how an entry line is split,
 * that cameras are appended in file order, that crop tuples read back exactly, which
 * out-of-range values are rejected, and that the first error ends the read.
 */
module ConfigProperties {
  import opened Wrappers
  import opened CppText
  import opened SceneConfig

  /**
   * A `key=value` entry line: once its whitespace is erased it reads `key=value`, with
   * no `=` in the key, and it does not start with `[` or `#`.
   */
  predicate EntryLine(raw: string, key: string, value: string) {
    var line := EraseSpaces(raw);
    && line == key + "=" + value
    && StdString(line)
    && '=' !in key
    && (key == [] || (key[0] != '[' && key[0] != '#'))
  }

  /** The erased line of an entry line is neither blank, a comment nor a label, and splits into its key and value. */
  lemma EntryLineParts(raw: string, key: string, value: string)
    requires EntryLine(raw, key, value)
    ensures EraseSpaces(raw) != [] && EraseSpaces(raw)[0] != '[' && EraseSpaces(raw)[0] != '#'
    ensures SplitKeyValue(EraseSpaces(raw)) == (key, value)
  {
    var line := EraseSpaces(raw);
    forall k | 0 <= k < |key| ensures line[k] != '=' {
      assert line[k] == key[k];
    }
    FindFirst(line, '=', 0, |key|);
    assert line[..|key|] == key;
    assert line[|key| + 1..] == value;
  }

  /** An entry line leaves the section as it is and does what ApplyEntry says for its key and value. */
  lemma EntryLineDispatch(sec: Section, s: Settings, raw: string, key: string, value: string,
                          canOpen: string -> bool, stod: string -> Option<Double>)
    requires EntryLine(raw, key, value)
    ensures ParseLine(sec, s, raw, canOpen, stod) ==
      match ApplyEntry(sec, s, EraseSpaces(raw), key, value, canOpen, stod)
      case Ok(s') => Ok((sec, s'))
      case Err(e) => Err(e)
  {
    EntryLineParts(raw, key, value);
  }

  /** Blank lines and comments (after the erase) change neither the section nor the settings. */
  lemma SkippedLineChangesNothing(sec: Section, s: Settings, raw: string,
                                  canOpen: string -> bool, stod: string -> Option<Double>)
    requires EraseSpaces(raw) == [] || EraseSpaces(raw)[0] == '#'
    ensures ParseLine(sec, s, raw, canOpen, stod) == Ok((sec, s))
  {
  }

  /** A line equal to the k-th label opens that label's section and changes no setting. */
  lemma {:induction false} KnownLabelOpensSection(sec: Section, s: Settings, raw: string, k: nat,
                                                  canOpen: string -> bool, stod: string -> Option<Double>)
    requires k < |Labels| && EraseSpaces(raw) == Labels[k]
    ensures ParseLine(sec, s, raw, canOpen, stod) == Ok((LabelSections[k], s))
  {
    var line := EraseSpaces(raw);
    assert line[0] == '[';
    LookupFindsLabel(line, 0, k);
  }

  lemma {:induction false} LookupFindsLabel(line: string, from: nat, k: nat)
    requires from <= k < |Labels| && line == Labels[k]
    ensures LookupLabel(line, from) == Some(LabelSections[k])
    decreases k - from
  {
    if from < k {
      assert Labels[from] != Labels[k];
      LookupFindsLabel(line, from + 1, k);
    }
  }

  /** Any other line starting with `[` is an undefined label and stops the read. */
  lemma UnknownLabelRejected(sec: Section, s: Settings, raw: string,
                             canOpen: string -> bool, stod: string -> Option<Double>)
    requires EraseSpaces(raw) != [] && EraseSpaces(raw)[0] == '[' && EraseSpaces(raw) !in Labels
    ensures ParseLine(sec, s, raw, canOpen, stod) == Err(UndefinedLabel(EraseSpaces(raw)))
  {
  }

  /**
   * In [TOP_CAMERAS] / [LATERAL_CAMERAS] an entry appends one camera named `key` with
   * source `value` to that list, or fails when the source cannot be opened.
   */
  lemma CameraLineAppends(sec: Section, s: Settings, raw: string, key: string, value: string,
                          canOpen: string -> bool, stod: string -> Option<Double>)
    requires sec == TopCameras || sec == LateralCameras
    requires EntryLine(raw, key, value)
    ensures !canOpen(value) ==> ParseLine(sec, s, raw, canOpen, stod) == Err(CannotOpenStream(value))
    ensures canOpen(value) && sec == TopCameras ==>
      ParseLine(sec, s, raw, canOpen, stod) == Ok((sec, s.(topCaps := s.topCaps + [NewEntry(key, value)])))
    ensures canOpen(value) && sec == LateralCameras ==>
      ParseLine(sec, s, raw, canOpen, stod) == Ok((sec, s.(lateralCaps := s.lateralCaps + [NewEntry(key, value)])))
  {
    EntryLineDispatch(sec, s, raw, key, value, canOpen, stod);
  }

  /** The cameras a list of `(name, source)` entries describes, in order. */
  function CameraEntries(cams: seq<(string, string)>): (r: seq<CameraEntry>)
    ensures |r| == |cams|
    ensures forall k :: 0 <= k < |cams| ==> r[k] == NewEntry(cams[k].0, cams[k].1)
  {
    seq(|cams|, k requires 0 <= k < |cams| => NewEntry(cams[k].0, cams[k].1))
  }

  /** A line that reads successfully hands its section and settings on to the rest of the file. */
  lemma ParseLinesCons(sec: Section, s: Settings, lines: seq<string>, sec': Section, s': Settings,
                       canOpen: string -> bool, stod: string -> Option<Double>)
    requires lines != [] && ParseLine(sec, s, lines[0], canOpen, stod) == Ok((sec', s'))
    ensures ParseLines(sec, s, lines, canOpen, stod) == ParseLines(sec', s', lines[1..], canOpen, stod)
  {
  }

  /** The first camera line of a block appends its camera, and the rest of the block is read after it. */
  lemma TopCameraStep(s: Settings, lines: seq<string>, name: string, source: string,
                      canOpen: string -> bool, stod: string -> Option<Double>)
    requires lines != [] && EntryLine(lines[0], name, source) && canOpen(source)
    ensures ParseLines(TopCameras, s, lines, canOpen, stod)
         == ParseLines(TopCameras, s.(topCaps := s.topCaps + [NewEntry(name, source)]), lines[1..], canOpen, stod)
  {
    CameraLineAppends(TopCameras, s, lines[0], name, source, canOpen, stod);
    ParseLinesCons(TopCameras, s, lines, TopCameras, s.(topCaps := s.topCaps + [NewEntry(name, source)]), canOpen, stod);
  }

  /** `lines` are `name=source` entry lines for the cameras `cams`, every source openable. */
  predicate CameraBlock(lines: seq<string>, cams: seq<(string, string)>, canOpen: string -> bool) {
    && |lines| == |cams|
    && forall k :: 0 <= k < |cams| ==> EntryLine(lines[k], cams[k].0, cams[k].1) && canOpen(cams[k].1)
  }

  lemma CameraBlockTail(lines: seq<string>, cams: seq<(string, string)>, canOpen: string -> bool)
    requires CameraBlock(lines, cams, canOpen) && cams != []
    ensures EntryLine(lines[0], cams[0].0, cams[0].1) && canOpen(cams[0].1)
    ensures CameraBlock(lines[1..], cams[1..], canOpen)
  {
    forall k | 0 <= k < |cams| - 1
      ensures EntryLine(lines[1..][k], cams[1..][k].0, cams[1..][k].1) && canOpen(cams[1..][k].1)
    {
      assert lines[1..][k] == lines[k + 1] && cams[1..][k] == cams[k + 1];
    }
  }

  lemma AppendCameras(s: Settings, cams: seq<(string, string)>)
    requires cams != []
    ensures s.(topCaps := s.topCaps + CameraEntries(cams))
         == s.(topCaps := s.topCaps + [NewEntry(cams[0].0, cams[0].1)]).(topCaps := s.topCaps + [NewEntry(cams[0].0, cams[0].1)] + CameraEntries(cams[1..]))
  {
    assert s.topCaps + CameraEntries(cams) == s.topCaps + [NewEntry(cams[0].0, cams[0].1)] + CameraEntries(cams[1..]);
  }

  /**
   * A block of `name=source` lines in [TOP_CAMERAS] appends one camera per line, in file
   * order, when every source can be opened; nothing else changes.
   */
  lemma {:induction false} TopCamerasInFileOrder(s: Settings, lines: seq<string>, cams: seq<(string, string)>,
                                                 canOpen: string -> bool, stod: string -> Option<Double>)
    requires CameraBlock(lines, cams, canOpen)
    ensures ParseLines(TopCameras, s, lines, canOpen, stod)
         == Ok((TopCameras, s.(topCaps := s.topCaps + CameraEntries(cams))))
    decreases |cams|
  {
    if cams == [] {
      assert s.topCaps + CameraEntries(cams) == s.topCaps;
      assert s.(topCaps := s.topCaps) == s;
    } else {
      var s1 := s.(topCaps := s.topCaps + [NewEntry(cams[0].0, cams[0].1)]);
      CameraBlockTail(lines, cams, canOpen);
      TopCameraStep(s, lines, cams[0].0, cams[0].1, canOpen, stod);
      TopCamerasInFileOrder(s1, lines[1..], cams[1..], canOpen, stod);
      AppendCameras(s, cams);
    }
  }

  // ---------------------------------------------------------------------------
  // Crop tuples
  // ---------------------------------------------------------------------------

  predicate IsInt32(x: int) {
    INT_MIN <= x <= INT_MAX
  }

  predicate Int32Crop(c: Crop) {
    IsInt32(c.first) && IsInt32(c.second) && IsInt32(c.third) && IsInt32(c.fourth)
  }

  /** `t` is the text of one tuple field holding `x`: std::stoi reads `x`, and it holds no separator. */
  predicate FieldText(t: string, x: int) {
    Stoi(t) == Ok(x) && ',' !in t && ')' !in t
  }

  /** The decimal text of a 32-bit value is a field holding that value. */
  lemma IntTextIsField(x: int)
    requires IsInt32(x)
    ensures FieldText(IntText(x), x)
  {
    var t := IntText(x);
    forall k | 0 <= k < |t| ensures t[k] != ',' && t[k] != ')' {
    }
    StoiIntText(x);
  }

  /** `value` holds the text `t` at `pos`, immediately followed by `sep`. */
  predicate TextAt(value: string, pos: nat, t: string, sep: char) {
    pos + |t| < |value| && value[pos..pos + |t|] == t && value[pos + |t|] == sep
  }

  /** The first `sep` from `pos` on is the one right after `t`, when `t` has none. */
  lemma FindsSeparatorAfter(value: string, pos: nat, t: string, sep: char)
    requires StdString(value) && TextAt(value, pos, t, sep) && sep !in t
    ensures Find(value, sep, pos) == pos + |t|
  {
    forall k | pos <= k < pos + |t| ensures value[k] != sep {
      assert value[k] == value[pos..pos + |t|][k - pos];
    }
    FindFirst(value, sep, pos, pos + |t|);
  }

  /** A field followed by a comma reads back as its value, and reading resumes after the comma. */
  lemma FieldReadsBack(value: string, pos: nat, t: string, x: int, next: nat)
    requires StdString(value) && FieldText(t, x) && TextAt(value, pos, t, ',')
    requires next == pos + |t| + 1
    ensures CropField(value, pos) == Ok((x, next))
  {
    FindsSeparatorAfter(value, pos, t, ',');
    FieldAt(value, pos, pos + |t|, t, x);
  }

  /** The field from `pos` up to the comma found at `comma` is the number `x`. */
  lemma FieldAt(value: string, pos: nat, comma: nat, t: string, x: int)
    requires StdString(value) && pos <= comma < |value|
    requires Find(value, ',', pos) == comma && value[pos..comma] == t && Stoi(t) == Ok(x)
    ensures CropField(value, pos) == Ok((x, comma + 1))
  {
    SubstrUpTo(value, pos, comma);
    CropFieldOf(value, pos, comma, t, x);
  }

  lemma SubstrUpTo(value: string, pos: nat, end: nat)
    requires StdString(value) && pos <= end <= |value|
    ensures Sub(value, pos, SizeSub(end, pos)) == Ok(value[pos..end])
  {
    assert SizeSub(end, pos) == end - pos;
  }

  lemma CropFieldOf(value: string, pos: nat, comma: nat, t: string, x: int)
    requires comma < NPOS
    requires Find(value, ',', pos) == comma && Sub(value, pos, SizeSub(comma, pos)) == Ok(t) && Int(t) == Ok(x)
    ensures CropField(value, pos) == Ok((x, comma + 1))
  {
  }

  /** Reading one more field extends the fields read so far. */
  lemma CropFieldsStep(value: string, k: nat, xs: seq<int>, p: nat, x: int, p': nat)
    requires CropFields(value, k) == Ok((xs, p))
    requires CropField(value, p) == Ok((x, p'))
    ensures CropFields(value, k + 1) == Ok((xs + [x], p'))
  {
  }

  lemma FieldsUpToOne(value: string, x1: int, p1: nat)
    requires CropField(value, 1) == Ok((x1, p1))
    ensures CropFields(value, 1) == Ok(([x1], p1))
  {
    assert CropFields(value, 0) == Ok(([], 1));
    CropFieldsStep(value, 0, [], 1, x1, p1);
    assert [] + [x1] == [x1];
  }

  lemma FieldsUpToTwo(value: string, x1: int, x2: int, p1: nat, p2: nat)
    requires CropFields(value, 1) == Ok(([x1], p1))
    requires CropField(value, p1) == Ok((x2, p2))
    ensures CropFields(value, 2) == Ok(([x1, x2], p2))
  {
    CropFieldsStep(value, 1, [x1], p1, x2, p2);
    assert [x1] + [x2] == [x1, x2];
  }

  lemma FieldsUpToThree(value: string, x1: int, x2: int, x3: int, p2: nat, p3: nat)
    requires CropFields(value, 2) == Ok(([x1, x2], p2))
    requires CropField(value, p2) == Ok((x3, p3))
    ensures CropFields(value, 3) == Ok(([x1, x2, x3], p3))
  {
    CropFieldsStep(value, 2, [x1, x2], p2, x3, p3);
    assert [x1, x2] + [x3] == [x1, x2, x3];
  }

  /** Three fields that each read back from where the previous one ended are the first three fields. */
  lemma ThreeFields(value: string, x1: int, x2: int, x3: int, p1: nat, p2: nat, p3: nat)
    requires CropField(value, 1) == Ok((x1, p1))
    requires CropField(value, p1) == Ok((x2, p2))
    requires CropField(value, p2) == Ok((x3, p3))
    ensures CropFields(value, 3) == Ok(([x1, x2, x3], p3))
  {
    FieldsUpToOne(value, x1, p1);
    FieldsUpToTwo(value, x1, x2, p1, p2);
    FieldsUpToThree(value, x1, x2, x3, p2, p3);
  }

  /** Where the pieces of `(a,b,c,d)` sit: a from 1, b from p1, c from p2, d from p3, `)` last. */
  predicate CropLayout(value: string, a: string, b: string, cc: string, d: string, p1: nat, p2: nat, p3: nat) {
    && p1 == |a| + 2 && p2 == p1 + |b| + 1 && p3 == p2 + |cc| + 1
    && |value| > 0 && value[0] == '('
    && TextAt(value, 1, a, ',') && TextAt(value, p1, b, ',') && TextAt(value, p2, cc, ',')
    && TextAt(value, p3, d, ')') && |value| == p3 + |d| + 1
  }

  lemma TextAtAppend(pre: string, t: string, sep: char, post: string, pos: nat)
    requires pos == |pre|
    ensures TextAt(pre + t + [sep] + post, pos, t, sep)
  {
    var v := pre + t + [sep] + post;
    assert v[pos..pos + |t|] == t;
  }

  lemma CropTextLayout(value: string, a: string, b: string, cc: string, d: string, p1: nat, p2: nat, p3: nat)
    requires value == "(" + a + "," + b + "," + cc + "," + d + ")"
    requires p1 == |a| + 2 && p2 == p1 + |b| + 1 && p3 == p2 + |cc| + 1
    ensures CropLayout(value, a, b, cc, d, p1, p2, p3)
  {
    assert value == "(" + a + [','] + (b + "," + cc + "," + d + ")");
    TextAtAppend("(", a, ',', b + "," + cc + "," + d + ")", 1);
    assert value == ("(" + a + ",") + b + [','] + (cc + "," + d + ")");
    TextAtAppend("(" + a + ",", b, ',', cc + "," + d + ")", p1);
    assert value == ("(" + a + "," + b + ",") + cc + [','] + (d + ")");
    TextAtAppend("(" + a + "," + b + ",", cc, ',', d + ")", p2);
    assert value == ("(" + a + "," + b + "," + cc + ",") + d + [')'] + [];
    TextAtAppend("(" + a + "," + b + "," + cc + ",", d, ')', [], p3);
  }

  /** The three comma-terminated fields of `(a,b,c,d)` read back, ending just past the third comma. */
  lemma CropFieldsReadBack(value: string, c: Crop, a: string, b: string, cc: string, d: string, p1: nat, p2: nat, p3: nat)
    requires StdString(value) && FieldText(a, c.first) && FieldText(b, c.second) && FieldText(cc, c.third)
    requires CropLayout(value, a, b, cc, d, p1, p2, p3)
    ensures CropFields(value, 3) == Ok(([c.first, c.second, c.third], p3))
  {
    FieldReadsBack(value, 1, a, c.first, p1);
    FieldReadsBack(value, p1, b, c.second, p2);
    FieldReadsBack(value, p2, cc, c.third, p3);
    ThreeFields(value, c.first, c.second, c.third, p1, p2, p3);
  }

  /** No `)` occurs in `(a,b,c,d)` before the last character. */
  lemma NoCloseParenBefore(value: string, a: string, b: string, cc: string, d: string, p1: nat, p2: nat, p3: nat)
    requires ')' !in a && ')' !in b && ')' !in cc && ')' !in d
    requires CropLayout(value, a, b, cc, d, p1, p2, p3)
    ensures forall k :: 0 <= k < p3 + |d| ==> value[k] != ')'
  {
    forall k | 0 <= k < p3 + |d| ensures value[k] != ')' {
      if 0 < k < p1 - 1 {
        assert value[k] == value[1..1 + |a|][k - 1];
      } else if p1 <= k < p2 - 1 {
        assert value[k] == value[p1..p1 + |b|][k - p1];
      } else if p2 <= k < p3 - 1 {
        assert value[k] == value[p2..p2 + |cc|][k - p2];
      } else if p3 <= k {
        assert value[k] == value[p3..p3 + |d|][k - p3];
      }
    }
  }

  /** After the three fields, the text up to the first `)` is the fourth value. */
  lemma LastFieldReadsBack(value: string, a: string, b: string, cc: string, d: string, p1: nat, p2: nat, p3: nat)
    requires StdString(value) && ')' !in a && ')' !in b && ')' !in cc && ')' !in d
    requires CropLayout(value, a, b, cc, d, p1, p2, p3)
    ensures Find(value, ')', 0) == p3 + |d|
    ensures Sub(value, p3, SizeSub(p3 + |d|, p3)) == Ok(d)
  {
    NoCloseParenBefore(value, a, b, cc, d, p1, p2, p3);
    FindFirst(value, ')', 0, p3 + |d|);
    SubstrUpTo(value, p3, p3 + |d|);
  }

  /** Three fields, then the text up to the first `)`, make up the whole tuple. */
  lemma CropSpecOf(value: string, x1: int, x2: int, x3: int, x4: int, p3: nat, close: nat, d: string)
    requires CropFields(value, 3) == Ok(([x1, x2, x3], p3))
    requires Find(value, ')', 0) == close
    requires Sub(value, p3, SizeSub(close, p3)) == Ok(d)
    requires Int(d) == Ok(x4)
    ensures CropSpec(value) == Ok(Crop(x1, x2, x3, x4))
  {
  }

  lemma CropRoundTripAt(c: Crop, value: string, a: string, b: string, cc: string, d: string, p1: nat, p2: nat, p3: nat)
    requires StdString(value)
    requires FieldText(a, c.first) && FieldText(b, c.second) && FieldText(cc, c.third) && FieldText(d, c.fourth)
    requires CropLayout(value, a, b, cc, d, p1, p2, p3)
    ensures CropSpec(value) == Ok(c)
  {
    CropFieldsReadBack(value, c, a, b, cc, d, p1, p2, p3);
    LastFieldReadsBack(value, a, b, cc, d, p1, p2, p3);
    CropSpecOf(value, c.first, c.second, c.third, c.fourth, p3, p3 + |d|, d);
  }

  /** The four fields of CropText(c) are fields holding the four values. */
  lemma CropFieldTexts(c: Crop)
    requires Int32Crop(c)
    ensures FieldText(IntText(c.first), c.first) && FieldText(IntText(c.second), c.second)
    ensures FieldText(IntText(c.third), c.third) && FieldText(IntText(c.fourth), c.fourth)
  {
    IntTextIsField(c.first);
    IntTextIsField(c.second);
    IntTextIsField(c.third);
    IntTextIsField(c.fourth);
  }

  /** CropText(c) of 32-bit values is far shorter than npos. */
  lemma CropTextIsStdString(c: Crop)
    requires Int32Crop(c)
    ensures StdString(CropText(c))
  {
  }

  /** Round trip: a crop tuple written as `(a,b,c,d)` is read back as exactly those four values. */
  lemma CropRoundTrip(c: Crop)
    requires Int32Crop(c)
    ensures CropSpec(CropText(c)) == Ok(c)
  {
    var a, b, cc, d := IntText(c.first), IntText(c.second), IntText(c.third), IntText(c.fourth);
    var p1 := |a| + 2;
    var p2 := p1 + |b| + 1;
    var p3 := p2 + |cc| + 1;
    CropFieldTexts(c);
    CropTextIsStdString(c);
    CropTextLayout(CropText(c), a, b, cc, d, p1, p2, p3);
    CropRoundTripAt(c, CropText(c), a, b, cc, d, p1, p2, p3);
  }

  /**
   * In [CROP_COORDS], `name=(a,b,c,d)` sets that crop on every top camera called `name`;
   * lateral cameras and all other settings are untouched.
   */
  lemma CropLineSetsNamedTopCameras(s: Settings, raw: string, key: string, c: Crop,
                                    canOpen: string -> bool, stod: string -> Option<Double>)
    requires Int32Crop(c) && EntryLine(raw, key, CropText(c))
    ensures ParseLine(CropCoords, s, raw, canOpen, stod)
         == Ok((CropCoords, s.(topCaps := UpdateNamed(s.topCaps, key, SetCrop(c)))))
  {
    CropRoundTrip(c);
    CropEntryApplies(s, EraseSpaces(raw), key, CropText(c), c, canOpen, stod);
    EntryLineDispatch(CropCoords, s, raw, key, CropText(c), canOpen, stod);
  }

  lemma CropEntryApplies(s: Settings, line: string, key: string, value: string, c: Crop,
                         canOpen: string -> bool, stod: string -> Option<Double>)
    requires CropSpec(value) == Ok(c)
    ensures ApplyEntry(CropCoords, s, line, key, value, canOpen, stod)
         == Ok(s.(topCaps := UpdateNamed(s.topCaps, key, SetCrop(c))))
  {
    CropDispatch(s, line, key, value, canOpen, stod);
    CropApplies(s, key, value, c);
  }

  lemma CropDispatch(s: Settings, line: string, key: string, value: string,
                     canOpen: string -> bool, stod: string -> Option<Double>)
    ensures ApplyEntry(CropCoords, s, line, key, value, canOpen, stod) == ApplyCrop(s, key, value)
  {
  }

  lemma CropApplies(s: Settings, key: string, value: string, c: Crop)
    requires CropSpec(value) == Ok(c)
    ensures ApplyCrop(s, key, value) == Ok(s.(topCaps := UpdateNamed(s.topCaps, key, SetCrop(c))))
  {
  }

  // ---------------------------------------------------------------------------
  // Range checks
  // ---------------------------------------------------------------------------

  /** A weight outside [1,5] is an error; inside, it is set on the top cameras of that name. */
  lemma WeightRangeChecked(s: Settings, raw: string, key: string, value: string, w: int,
                           canOpen: string -> bool, stod: string -> Option<Double>)
    requires EntryLine(raw, key, value) && Stoi(value) == Ok(w)
    ensures (w < 1 || w > 5) ==> ParseLine(Weights, s, raw, canOpen, stod) == Err(WeightOutOfRange(value, EraseSpaces(raw)))
    ensures 1 <= w <= 5 ==>
      ParseLine(Weights, s, raw, canOpen, stod) == Ok((Weights, s.(topCaps := UpdateNamed(s.topCaps, key, SetWeight(w)))))
  {
    EntryLineDispatch(Weights, s, raw, key, value, canOpen, stod);
    WeightEntry(s, EraseSpaces(raw), key, value, w, canOpen, stod);
  }

  lemma WeightEntry(s: Settings, line: string, key: string, value: string, w: int,
                    canOpen: string -> bool, stod: string -> Option<Double>)
    requires Int(value) == Ok(w)
    ensures ApplyEntry(Weights, s, line, key, value, canOpen, stod)
         == if w < 1 || w > 5 then Err(WeightOutOfRange(value, line))
            else Ok(s.(topCaps := UpdateNamed(s.topCaps, key, SetWeight(w))))
  {
  }

  /** `smooth` must be positive; a positive value becomes the smoothing window. */
  lemma SmoothMustBePositive(s: Settings, raw: string, value: string, t: int,
                             canOpen: string -> bool, stod: string -> Option<Double>)
    requires EntryLine(raw, "smooth", value) && Stoi(value) == Ok(t)
    ensures t <= 0 ==> ParseLine(General, s, raw, canOpen, stod) == Err(SmoothNotPositive(value, EraseSpaces(raw)))
    ensures t > 0 ==> ParseLine(General, s, raw, canOpen, stod) == Ok((General, s.(smoothing := t)))
  {
    EntryLineDispatch(General, s, raw, "smooth", value, canOpen, stod);
    assert ApplyEntry(General, s, EraseSpaces(raw), "smooth", value, canOpen, stod)
        == ApplyGeneral(s, EraseSpaces(raw), "smooth", value, stod);
  }

  /**
   * `alpha` is rejected when it is at most -1 or at least 1 (infinities included); any
   * other value std::stod returns, NaN among them since NaN fails both comparisons, is kept.
   */
  lemma AlphaMustBeInOpenInterval(s: Settings, raw: string, value: string, a: Double,
                                  canOpen: string -> bool, stod: string -> Option<Double>)
    requires EntryLine(raw, "alpha", value) && stod(value) == Some(a)
    ensures (AtMost(a, -1.0) || AtLeast(a, 1.0)) ==>
      ParseLine(General, s, raw, canOpen, stod) == Err(AlphaOutOfRange(value, EraseSpaces(raw)))
    ensures (a.Finite? && -1.0 < a.value < 1.0) || a.NaN? ==>
      ParseLine(General, s, raw, canOpen, stod) == Ok((General, s.(alpha := Some(a))))
  {
    EntryLineDispatch(General, s, raw, "alpha", value, canOpen, stod);
    assert ApplyEntry(General, s, EraseSpaces(raw), "alpha", value, canOpen, stod)
        == ApplyGeneral(s, EraseSpaces(raw), "alpha", value, stod);
  }

  /** No entry line can make the smoothing window non-positive. */
  lemma ApplyEntryKeepsSmoothing(sec: Section, s: Settings, line: string, key: string, value: string,
                                 canOpen: string -> bool, stod: string -> Option<Double>)
    requires s.smoothing > 0
    ensures ApplyEntry(sec, s, line, key, value, canOpen, stod).Ok? ==>
            ApplyEntry(sec, s, line, key, value, canOpen, stod).value.smoothing > 0
  {
    match sec
    case General =>
      var r := ApplyGeneral(s, line, key, value, stod);
      assert r.Ok? ==> r.value.smoothing > 0;
    case _ =>
  }

  /** No line can make the smoothing window non-positive. */
  lemma ParseLineKeepsSmoothing(sec: Section, s: Settings, raw: string,
                                canOpen: string -> bool, stod: string -> Option<Double>)
    requires s.smoothing > 0
    ensures ParseLine(sec, s, raw, canOpen, stod).Ok? ==> ParseLine(sec, s, raw, canOpen, stod).value.1.smoothing > 0
  {
    var line := EraseSpaces(raw);
    var kv := SplitKeyValue(line);
    ApplyEntryKeepsSmoothing(sec, s, line, kv.0, kv.1, canOpen, stod);
  }

  /** Between any two successfully read settings the smoothing window stays positive. */
  lemma {:induction false} SmoothingStaysPositive(sec: Section, s: Settings, lines: seq<string>,
                                                  canOpen: string -> bool, stod: string -> Option<Double>)
    requires s.smoothing > 0
    ensures ParseLines(sec, s, lines, canOpen, stod).Ok? ==> ParseLines(sec, s, lines, canOpen, stod).value.1.smoothing > 0
    decreases |lines|
  {
    if lines != [] {
      var r := ParseLine(sec, s, lines[0], canOpen, stod);
      ParseLineKeepsSmoothing(sec, s, lines[0], canOpen, stod);
      if r.Ok? {
        SmoothingStaysPositive(r.value.0, r.value.1, lines[1..], canOpen, stod);
      }
    }
  }

  /** The read of a whole file (from the constructor's defaults) never yields a non-positive window. */
  lemma ReadConfigSmoothingPositive(file: Option<seq<string>>, canOpen: string -> bool, stod: string -> Option<Double>)
    ensures ReadConfig(DefaultSettings(), file, canOpen, stod).Ok? ==>
      ReadConfig(DefaultSettings(), file, canOpen, stod).value.smoothing > 0
  {
    if file.Some? {
      SmoothingStaysPositive(NoSection, DefaultSettings(), file.value, canOpen, stod);
    }
  }

  // ---------------------------------------------------------------------------
  // Sequencing: the first error ends the read
  // ---------------------------------------------------------------------------

  /** Reading `a + b` is reading `a`, then reading `b` from where `a` left off; an error in `a` is final. */
  lemma {:induction false} ParseLinesAppend(sec: Section, s: Settings, a: seq<string>, b: seq<string>,
                                            canOpen: string -> bool, stod: string -> Option<Double>)
    ensures ParseLines(sec, s, a + b, canOpen, stod) ==
      match ParseLines(sec, s, a, canOpen, stod)
      case Err(e) => Err(e)
      case Ok(st) => ParseLines(st.0, st.1, b, canOpen, stod)
    decreases |a|
  {
    if a == [] {
      assert a + b == b;
    } else {
      assert (a + b)[0] == a[0];
      assert (a + b)[1..] == a[1..] + b;
      var r := ParseLine(sec, s, a[0], canOpen, stod);
      if r.Ok? {
        ParseLinesAppend(r.value.0, r.value.1, a[1..], b, canOpen, stod);
      }
    }
  }

  /** A line that fails makes the whole file fail with that line's error, whatever follows it. */
  lemma FailingLineFailsFile(sec: Section, s: Settings, before: seq<string>, bad: string, after: seq<string>,
                             canOpen: string -> bool, stod: string -> Option<Double>)
    requires ParseLines(sec, s, before, canOpen, stod).Ok?
    requires var st := ParseLines(sec, s, before, canOpen, stod).value;
             ParseLine(st.0, st.1, bad, canOpen, stod).Err?
    ensures var st := ParseLines(sec, s, before, canOpen, stod).value;
            ParseLines(sec, s, before + [bad] + after, canOpen, stod) == Err(ParseLine(st.0, st.1, bad, canOpen, stod).error)
  {
    ParseLinesAppend(sec, s, before, [bad] + after, canOpen, stod);
    assert before + [bad] + after == before + ([bad] + after);
    assert ([bad] + after)[0] == bad;
  }

  /** When the whole file reads, the settings in force at the stop are the settings read. */
  lemma {:induction false} SettingsAtStopOnSuccess(sec: Section, s: Settings, lines: seq<string>,
                                                   canOpen: string -> bool, stod: string -> Option<Double>)
    ensures ParseLines(sec, s, lines, canOpen, stod).Ok? ==>
      SettingsAtStop(sec, s, lines, canOpen, stod) == ParseLines(sec, s, lines, canOpen, stod).value.1
    decreases |lines|
  {
    if lines != [] {
      var r := ParseLine(sec, s, lines[0], canOpen, stod);
      if r.Ok? {
        SettingsAtStopOnSuccess(r.value.0, r.value.1, lines[1..], canOpen, stod);
      }
    }
  }

  /**
   * A failing line leaves in force exactly the settings read before it: the lines
   * before it take effect, the failing line and everything after it do not.
   */
  lemma {:induction false} SettingsAtStopOnFailure(sec: Section, s: Settings, before: seq<string>, bad: string,
                                                   after: seq<string>, canOpen: string -> bool,
                                                   stod: string -> Option<Double>)
    requires ParseLines(sec, s, before, canOpen, stod).Ok?
    requires var st := ParseLines(sec, s, before, canOpen, stod).value;
             ParseLine(st.0, st.1, bad, canOpen, stod).Err?
    ensures SettingsAtStop(sec, s, before + [bad] + after, canOpen, stod)
         == ParseLines(sec, s, before, canOpen, stod).value.1
    decreases |before|
  {
    var rest := [bad] + after;
    assert before + [bad] + after == before + rest;
    assert rest[0] == bad;
    if before == [] {
      assert before + rest == rest;
    } else {
      assert (before + rest)[0] == before[0];
      assert (before + rest)[1..] == before[1..] + rest;
      var r := ParseLine(sec, s, before[0], canOpen, stod);
      assert before[1..] + [bad] + after == before[1..] + rest;
      SettingsAtStopOnFailure(r.value.0, r.value.1, before[1..], bad, after, canOpen, stod);
    }
  }
}
