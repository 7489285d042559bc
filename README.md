# Automatic multi-camera director: a verified model

RegiaAutomaticaMulticamera is an automatic video director. Each top camera runs a
worker thread (`Capture::motionDetection`) that differences consecutive frames and
measures how much moved. The director (`Scene::cameraSwitch`) reads one sample from
every camera per cycle and picks the cycle's winner. It counts the winners over a
window of `smoothing` cycles and then switches the shown camera to the camera with the
most votes. Everything is configured by a sectioned text file (`Scene::readConfigFile`).

This project models that core in Dafny:

- `wrappers.dfy` (`Wrappers`): `Option` and `Result`.
- `cpp_text.dfy` (`CppText`): the C++ string operations the reader relies on:
  - `find` and `substr`, with `size_t` wrap-around and `npos`;
  - erasing whitespace;
  - `std::stoi` with its two exceptions and the 32-bit `int` range;
  - decimal text of integers;
  - `double` values as `std::stod` returns them (finite, infinite or NaN) and the two comparisons `<=` and `>=` on them;
  - `unsigned int` wrap-around (`UINT_MOD`).
- `scene_config.dfy` (`SceneConfig`): the reader as a specification.
  - `ParseLine` reads one raw line, `ParseLines` a file and `ReadConfig` the whole read.
  - Every thrown exception becomes an error value.
  - The first error aborts the read.
- `config_properties.dfy` (`ConfigProperties`): lemmas about that specification:
  - how labels, skipped lines and camera lines behave;
  - the crop tuple round trip;
  - the range checks;
  - the smoothing invariant;
  - how the first error ends the read and what stays in force.
- `scene_reader.dfy` (`SceneReader`): the reader as the source writes it.
  - A `Scene` class whose fields are updated line by line.
  - The crop tuple is parsed into a four-element array.
  - Each method is proved to compute exactly the specification.
- `camera_switch.dfy` (`CameraSwitch`): the winner scan, the votes and the commits.
  - The spec functions are `Winner`, `Step` and `Run`.
  - A `Switcher` class holds the vote array, the shown camera and the 32-bit cycle counter; its `Cycle` method is proved against `Step`.
- `monitor_layout.dfy` (`MonitorLayout`): the monitor height and tile-placement formulas.
- `capture.dfy` (`CaptureWorker`): one camera's worker.
  - The area filter and sum.
  - The 32-bit `processedFrameNum` that starts at `(unsigned)-1`, so the first frame is skipped.
  - The single-slot hand-over (`readyToRetrive`) between worker and director.
  - `operator==` and `crop`.

External effects are parameters:

- The reader gets the file as `Option<seq<string>>`; `None` means it cannot be opened.
- The `std::ifstream(value).good()` probe of a camera source is `canOpen: string -> bool`.
- `std::stod` is `stod: string -> Option<Double>`. A `Double` is a finite real, an infinity or NaN, so text such as `nan` or `inf` can reach the `alpha` range check. `None` stands for the exception `stod` throws.
- The worker gets the result of `read` as an `Option<Frame>`, the stop flag as a `bool`, and the contour areas of its difference image as a `seq<real>`.
- The director's cycle gets each camera's `active` flag and `score`.

Two notes on the source:

- Contours with an area under 50 are dropped (`capture.cpp:90`), so a contour counts when its area is at least 50.
- `src/capture.h` is older than `src/capture.cpp` and lacks the fields the `.cpp` uses. The model follows `capture.cpp`.

## Model

| member | source | states |
|---|---|---|
| CppText.SizeAdd | src/scene.cpp:149 | `nextPos + 1` on `size_t`: the exact sum below 2^64, otherwise the sum minus 2^64, so a `npos` position wraps to 0 |
| CppText.SizeSub | src/scene.cpp:148 | `nextPos - pos` on `size_t`: the exact difference when `pos <= nextPos`, otherwise 2^64 minus the shortfall |
| CppText.Find | src/scene.cpp:147 | the result is the first occurrence of the character at or after `from`, or `npos` when there is none |
| CppText.FindFirst | src/scene.cpp:147 | a position holding the character, with none before it from `from`, is what `find` returns |
| CppText.Substr | src/scene.cpp:129-130 | throws `out_of_range` exactly when `pos > size()`; otherwise returns the text at `pos`, `min(count, size() - pos)` characters long |
| CppText.EraseSpaces | src/scene.cpp:112 | the result has no whitespace, keeps every non-space character and adds none; a single character is dropped exactly when it is whitespace |
| CppText.EraseSpacesAppend | src/scene.cpp:112 | erasing is done character by character: the erase of a concatenation is the concatenation of the erases |
| CppText.EraseSpacesKeepsSpaceless | src/scene.cpp:112 | a line without whitespace is unchanged by the erase |
| CppText.DigitRun | src/scene.cpp:148 | the run of decimal digits starting at `i` is maximal: every character in it is a digit and the next one is not |
| CppText.SignLength | src/scene.cpp:148 | the sign `stoi` reads is at most one character, present exactly when the text starts with `+` or `-` |
| CppText.StoiRejectsDoubleSign | src/scene.cpp:148 | a second sign where the digits should start makes `stoi` throw `invalid_argument` |
| CppText.Stoi | src/scene.cpp:148 | the value is the optional sign applied to the maximal run of digits after it; `invalid_argument` is thrown exactly when no digit follows the sign, `out_of_range` exactly when the value leaves the 32-bit `int` range |
| CppText.NatText | src/scene.cpp:148 | the decimal text of a natural number is non-empty and made only of digits |
| CppText.IntText | src/scene.cpp:148 | the decimal text of an integer is digits with a leading `-` exactly for negatives |
| CppText.NatTextValue | src/scene.cpp:148 | the digits of a number's decimal text, read back as digits, have the number as their value |
| CppText.StoiIntText | src/scene.cpp:148 | round trip: `stoi` of the decimal text of any 32-bit integer gives that integer |
| SceneConfig.DefaultSettings | src/scene.cpp:12-21 | before the file is read there are no cameras, smoothing is 20 and the output is 1920x1080 |
| SceneConfig.Apply | src/scene.cpp:152-156 | a per-camera setting never changes a camera's name or source |
| SceneConfig.UpdateNamed | src/scene.cpp:152-156 | a per-camera line changes exactly the top cameras with the given name; the others, the count and the order are kept |
| SceneConfig.Int | src/scene.cpp:162 | the value is `stoi`'s, and a `stoi` exception becomes a configuration error |
| SceneConfig.Sub | src/scene.cpp:148 | the text is `substr`'s, and its exception becomes a configuration error |
| SceneConfig.LookupLabel | src/scene.cpp:115-125 | a label is found exactly when the line is one of the seven labels |
| SceneConfig.SplitKeyValue | src/scene.cpp:128-130 | the key is the text before the first `=` and the value the text after it; with no `=`, both are the whole line |
| SceneConfig.CropFields | src/scene.cpp:144-150 | reading `k` comma-terminated fields yields exactly `k` integers |
| SceneConfig.CropField | src/scene.cpp:147-149 | one pass of the field loop: `stoi` of the text from `pos` up to the next comma, and `pos` moved one past that comma (to 0 when there is none) |
| SceneConfig.CropFieldsPosition | src/scene.cpp:145-149 | after `k` fields the loop's `pos` is where field `k` starts: 1, then one past each comma found |
| SceneConfig.CropFieldsValues | src/scene.cpp:146-148 | the `j`-th value read is `stoi` of the text of field `j`, from its start up to the next comma |
| SceneConfig.CropFieldsReadEachField | src/scene.cpp:144-150 | reading `k` fields succeeds exactly when `stoi` reads each of the `k` field texts; then value `j` is field `j` and reading stops where field `k` starts |
| SceneConfig.CropSpec | src/scene.cpp:143-151 | the tuple: three comma-terminated fields, then `stoi` of the text up to the first `)`; the first exception is the result |
| SceneConfig.AddCamera | src/scene.cpp:133-140 | a camera line fails exactly when its source cannot be opened; otherwise it appends one camera with that name and source |
| SceneConfig.ApplyCrop | src/scene.cpp:143-157 | a [CROP_COORDS] line parses its tuple and sets it on every top camera with that name |
| SceneConfig.ApplyWeight | src/scene.cpp:160-165 | a [WEIGHTS] line fails on a `stoi` error or a weight outside [1,5]; otherwise it sets the weight on the top cameras with that name |
| SceneConfig.ApplyDisplayAnalysis | src/scene.cpp:168-170 | a [DISPLAY_ANALYSIS] line with value `true` turns the analysis view on for the top cameras with that name; any other value changes nothing |
| SceneConfig.ApplyOut | src/scene.cpp:174-178 | an [OUT] line sets `outPath`, or the width or height through `stoi`; other keys change nothing |
| CppText.AtMost | src/scene.cpp:194 | the `double` comparison `a <= -1`: false for NaN, true for minus infinity |
| CppText.AtLeast | src/scene.cpp:194 | the `double` comparison `a >= 1`: false for NaN, true for plus infinity |
| CppText.DoubleComparisons | src/scene.cpp:194 | NaN satisfies neither comparison, any other value at least one, and both only when it equals the bound; infinities satisfy exactly the one on their side |
| SceneConfig.ApplyGeneral | src/scene.cpp:182-198 | a [GENERAL] line sets the flag, smoothing window, file path or `alpha` its key names, with the `smooth` and `alpha` range checks; other keys change nothing |
| SceneConfig.ApplyEntry | src/scene.cpp:132-198 | an entry line does what its section gives to its key and value; outside any section it changes nothing |
| SceneConfig.ParseLine | src/scene.cpp:112-198 | one line: erase whitespace, skip blanks and comments, switch section on a label, fail on an unknown label, otherwise apply the entry |
| SceneConfig.ParseLines | src/scene.cpp:111-199 | the lines in order, the first error ending the read |
| SceneConfig.SettingsAtStop | src/scene.cpp:111-199 | the settings in force when the read stops, at the end or at the failing line |
| SceneConfig.ReadConfig | src/scene.cpp:102-203 | an unopenable file is an error; otherwise the read starts with no section from the constructor's settings |
| ConfigProperties.EntryLineParts | src/scene.cpp:111-130 | an entry line, once its whitespace is erased, is neither blank, a comment nor a label, and splits into its key and value |
| ConfigProperties.EntryLineDispatch | src/scene.cpp:128-198 | an entry line keeps the current section and has the effect its section gives to its key and value |
| ConfigProperties.SkippedLineChangesNothing | src/scene.cpp:112-113 | a blank line or comment, after the erase, changes neither the section nor any setting |
| ConfigProperties.KnownLabelOpensSection | src/scene.cpp:115-124 | a line equal to a label opens that label's section and changes no setting |
| ConfigProperties.LookupFindsLabel | src/scene.cpp:117-123 | the label search returns the section of the matching label |
| ConfigProperties.UnknownLabelRejected | src/scene.cpp:125 | any other line starting with `[` fails with "Undefined label" |
| ConfigProperties.CameraLineAppends | src/scene.cpp:133-140 | in a camera section an entry fails when the source cannot be opened; otherwise it appends `(key, value)` to that section's list and changes nothing else |
| ConfigProperties.CameraEntries | src/scene.cpp:139 | the cameras a list of name/source pairs describes, one per pair and in order |
| ConfigProperties.ParseLinesCons | src/scene.cpp:111 | a line that succeeds hands its section and settings on to the rest of the file |
| ConfigProperties.TopCameraStep | src/scene.cpp:139 | the first line of a camera block appends its camera before the rest is read |
| ConfigProperties.TopCamerasInFileOrder | src/scene.cpp:133-140 | a block of openable `name=source` lines in [TOP_CAMERAS] appends the cameras in file order and changes nothing else |
| ConfigProperties.IntTextIsField | src/scene.cpp:148 | the decimal text of a 32-bit value reads back through `stoi` and holds no `,` or `)` |
| ConfigProperties.FindsSeparatorAfter | src/scene.cpp:147 | the separator search stops right after a field that holds no separator |
| ConfigProperties.FieldReadsBack | src/scene.cpp:146-150 | a comma-terminated field reads back as its value, and reading resumes after the comma |
| ConfigProperties.CropRoundTrip | src/scene.cpp:143-151 | round trip: a tuple `(a,b,c,d)` of 32-bit integers written in decimal is read back as exactly `a, b, c, d` |
| ConfigProperties.CropRoundTripAt | src/scene.cpp:143-151 | any text laid out as `(` field `,` field `,` field `,` field `)` reads back as the four field values |
| ConfigProperties.LastFieldReadsBack | src/scene.cpp:151 | the fourth value is the text from the end of the third field up to the first `)` |
| ConfigProperties.CropLineSetsNamedTopCameras | src/scene.cpp:143-157 | in [CROP_COORDS], `name=(a,b,c,d)` sets that crop on every top camera called `name` and changes nothing else |
| ConfigProperties.CropEntryApplies | src/scene.cpp:152-156 | a tuple that parses is set on the top cameras with that name |
| ConfigProperties.WeightRangeChecked | src/scene.cpp:160-165 | a weight outside [1,5] fails with the range error naming the erased line; inside, it is set on the top cameras with that name |
| ConfigProperties.SmoothMustBePositive | src/scene.cpp:184-188 | a `smooth` value of 0 or less fails with the error naming the erased line; a positive value becomes the smoothing window |
| ConfigProperties.AlphaMustBeInOpenInterval | src/scene.cpp:192-196 | an `alpha` at most -1 or at least 1, infinities included, fails with the range error naming the erased line; a finite value inside (-1, 1), or NaN, which fails both comparisons, becomes the blending factor |
| ConfigProperties.ApplyEntryKeepsSmoothing | src/scene.cpp:182-198 | no entry line can make the smoothing window non-positive |
| ConfigProperties.ParseLineKeepsSmoothing | src/scene.cpp:111-198 | no line can make the smoothing window non-positive |
| ConfigProperties.SmoothingStaysPositive | src/scene.cpp:111-199 | reading any sequence of lines keeps a positive smoothing window positive |
| ConfigProperties.ReadConfigSmoothingPositive | src/scene.cpp:12-32 | a successful read starting from the constructor's defaults always leaves a positive smoothing window, which the director divides by |
| ConfigProperties.ParseLinesAppend | src/scene.cpp:111-199 | reading `a + b` is reading `a`, then `b` from where `a` left off; an error in `a` is final |
| ConfigProperties.FailingLineFailsFile | src/scene.cpp:125 | a failing line makes the whole read fail with that line's error, whatever follows it |
| ConfigProperties.SettingsAtStopOnSuccess | src/scene.cpp:111-199 | when the whole file reads, the settings in force at the end are the settings read |
| ConfigProperties.SettingsAtStopOnFailure | src/scene.cpp:125 | after a failing line, the settings read before it stay in force; neither that line nor any later one takes effect |
| SceneReader.ReadCropField | src/scene.cpp:147-149 | reading one field with `find`, `substr` and `stoi` gives exactly the field the specification reads, or the same error |
| SceneReader.ParseCropCoords | src/scene.cpp:144-151 | the loop filling `cropValues[0..2]`, then the last field, yields exactly the specified tuple, or the first error |
| SceneReader.FieldsFail | src/scene.cpp:146-150 | an error in any of the first three fields is the error of the whole tuple |
| SceneReader.Scene.constructor | src/scene.cpp:12-21 | a new Scene holds the default settings |
| SceneReader.Scene.UpdateTopCaps | src/scene.cpp:152-156 | the loop over the top cameras updates exactly the ones with the given name and changes no other field |
| SceneReader.Scene.ReadCropLine | src/scene.cpp:143-157 | either the settings become the specified ones and no error is reported, or the error is reported and nothing changes |
| SceneReader.Scene.ReadWeightLine | src/scene.cpp:160-166 | the same for a [WEIGHTS] line |
| SceneReader.Scene.ReadOutLine | src/scene.cpp:174-179 | the same for an [OUT] line |
| SceneReader.Scene.ReadGeneralLine | src/scene.cpp:182-198 | the same for a [GENERAL] line |
| SceneReader.Scene.ReadEntry | src/scene.cpp:132-198 | the same for an entry line in any section |
| SceneReader.Scene.ReadLine | src/scene.cpp:112-198 | one iteration of the read loop: the new section and fields are exactly those `ParseLine` gives, or its error is returned with nothing changed |
| SceneReader.Scene.ReadConfigFile | src/scene.cpp:102-203 | the reader returns the error `ReadConfig` gives, or none; the fields end as the settings in force where reading stopped, and an unopenable file changes nothing |
| CameraSwitch.Leader | src/scene.cpp:256-260 | the leader of the scan so far is an active camera with a score above 0, or none |
| CameraSwitch.LastActive | src/scene.cpp:242-243 | the last active camera so far is active, or none |
| CameraSwitch.Best | src/scene.cpp:232-258 | `maxMomentum`: 0 before any leader, then the leader's score |
| CameraSwitch.WinnerAsWritten | src/scene.cpp:256-264 | the scan as written: the leader, or the last index only when that camera is active, else -1 |
| CameraSwitch.Winner | src/scene.cpp:242-266 | the corrected scan: the leader, or else the last active camera |
| CameraSwitch.LeaderIsFirstBest | src/scene.cpp:256-260 | the leader is none exactly when no active camera scores above 0; otherwise it is the lowest-index active camera with the highest score |
| CameraSwitch.LastActiveFound | src/scene.cpp:242-243 | the last-active search finds a camera whenever one is active, and no later camera is active |
| CameraSwitch.WinnerIsBestActive | src/scene.cpp:242-266 | the cycle's winner is the first active camera with the highest positive score, or, when none scores above 0, the last active camera; when a camera is active the winner always is one |
| CameraSwitch.SelectWinner | src/scene.cpp:242-266 | the scan over the cameras in index order returns the winner, an active camera's index whenever one is active |
| CameraSwitch.AsWrittenAgreesWhenLastActive | src/scene.cpp:261-264 | when the last camera is active, the scan as written and the corrected scan pick the same camera |
| CameraSwitch.AsWrittenMissesWinner | src/scene.cpp:261-264 | the scan as written leaves the winner at -1 exactly when no active camera scores above 0 and the last camera is not active |
| CameraSwitch.AsWrittenOutOfBounds | src/scene.cpp:302 | with cameras `[active, ended]` both scoring 0, the scan as written votes at index -1 where the corrected scan picks camera 0 |
| CameraSwitch.WinnerAsWrittenStoppedAt | src/scene.cpp:246-253 | a stop seen while waiting on active camera `i` breaks the scan with the leader among cameras before `i` |
| CameraSwitch.StopAtFirstActiveMissesWinner | src/scene.cpp:233-302 | a stop seen while waiting on the first active camera leaves the winner at -1 for the vote that follows |
| CameraSwitch.FirstArgmaxIsFirstLargest | src/scene.cpp:307 | `max_element` returns the first index of a largest count |
| CameraSwitch.FirstLargestUnique | src/scene.cpp:307 | any first index of a largest count is the one `max_element` returns |
| CameraSwitch.FirstArgmax | src/scene.cpp:307 | `std::distance` to `std::max_element` over the vote counts |
| CameraSwitch.Commits | src/scene.cpp:306 | a cycle commits when its counter is a multiple of `smoothing` |
| CameraSwitch.Step | src/scene.cpp:302-342 | one cycle: a vote for the winner, then on a commit cycle the new shown camera and fresh votes; the counter moves on modulo 2^32 |
| CameraSwitch.Run | src/scene.cpp:219-343 | cycles one after another |
| CameraSwitch.Voted | src/scene.cpp:302 | a vote adds one to the winner's count and to the total, and leaves every other count alone |
| CameraSwitch.StepCounts | src/scene.cpp:302-342 | every cycle's winner is an active camera, and the cycle counter moves on by one modulo 2^32 |
| CameraSwitch.StepWithoutCommit | src/scene.cpp:302-306 | a cycle that does not commit adds exactly the winner's vote and keeps the shown camera |
| CameraSwitch.StepWithCommit | src/scene.cpp:306-309 | a commit shows the first camera with the most votes, this cycle's vote included, and resets every count to 0 |
| CameraSwitch.FirstCycleCommits | src/scene.cpp:213-217 | the first cycle commits on its single vote: the shown camera becomes that cycle's winner |
| CameraSwitch.WindowTail | src/scene.cpp:306 | a window without commit cycles starts with a cycle that does not commit and goes on without one |
| CameraSwitch.ShownStableBetweenCommits | src/scene.cpp:306-309 | between two commit cycles the shown camera does not change |
| CameraSwitch.VotesCountCycles | src/scene.cpp:302-309 | between commits every cycle adds one vote, so the votes count the cycles since the last commit |
| CameraSwitch.MaxElement | src/scene.cpp:307 | the loop over the vote array returns the first index of a largest count |
| CameraSwitch.Switcher.constructor | src/scene.cpp:213-217 | the director starts with all counts at 0, camera 0 shown and the counter at 0 |
| CameraSwitch.Switcher.Cycle | src/scene.cpp:219-343 | one pass of the director's loop returns the winner and leaves exactly the state `Step` specifies; the shown camera stays a valid index and the counter stays 32-bit |
| MonitorLayout.CDiv | src/scene.cpp:47 | C++ `int` division truncates toward zero: the quotient and the remainder take the sign of the dividend, and the remainder is smaller than the divisor |
| MonitorLayout.CDivIsTruncation | src/scene.cpp:47 | truncation toward zero determines the quotient: any quotient with that remainder is `CDiv`'s |
| MonitorLayout.MonitorHeight | src/scene.cpp:46-47 | the monitor height `224 + 112*((n-1)/4)` with C's truncating division |
| MonitorLayout.XOffset | src/scene.cpp:286 | the tile column: right of the preview for the first four cameras, then four per row |
| MonitorLayout.YOffset | src/scene.cpp:287 | the tile row: two rows for the first four cameras, then one row per four more |
| MonitorLayout.EmptyMonitorHeight | src/scene.cpp:46-48 | with no camera, truncating division still gives the two-row minimum of 224 pixels |
| MonitorLayout.HeightRows | src/scene.cpp:46-48 | the monitor is at least 224 pixels high, exactly 224 for up to four cameras, and one 112-pixel row higher for every four more |
| MonitorLayout.TileInsideMonitor | src/scene.cpp:286-288 | the tile of any camera `i < n` lies inside the 1270-pixel-wide monitor sized for `n` cameras |
| MonitorLayout.FirstTilesRightOfPreview | src/scene.cpp:286-287 | the first four tiles sit right of the 398-pixel preview column, within the first two rows |
| MonitorLayout.Cell | src/scene.cpp:286-287 | every tile sits on the 199x112 grid |
| MonitorLayout.CellsDistinct | src/scene.cpp:286-287 | two cameras never share a grid cell |
| MonitorLayout.TilesDisjoint | src/scene.cpp:286-288 | the tiles of two different cameras never overlap |
| CaptureWorker.Kept | src/capture.cpp:88-92 | the contours that count are exactly the areas of at least 50, in order; when no contour is noise, all of them count |
| CaptureWorker.KeptAppend | src/capture.cpp:88-92 | filtering keeps the contours' order: the kept contours of a concatenation are the concatenation of the kept contours |
| CaptureWorker.AreaSum | src/capture.cpp:87-112 | the total area: the sum of the contour areas of at least 50 |
| CaptureWorker.TotalArea | src/capture.cpp:87-112 | the loop over the contours returns the sum of the areas that are not noise |
| CaptureWorker.AreaSumIsTotalOfKept | src/capture.cpp:87-112 | the total area is the plain sum of the contours that count |
| CaptureWorker.AreaSumBounds | src/capture.cpp:87-112 | the total area is never negative, is 0 exactly when every contour is noise, and is at least 50 per counted contour |
| CaptureWorker.NoiseIgnored | src/capture.cpp:90-92 | a noise contour, wherever it sits, does not change the total area |
| CaptureWorker.IterateSpec | src/capture.cpp:56-138 | one loop iteration: end on a failed read, mark the slot full and end on stop, block on a full slot, else publish (unless first frame) and count the frame |
| CaptureWorker.FinishSpec | src/capture.cpp:116-137 | the end of an iteration past the stop check and the wait: publish when differencing, keep the frame, count it |
| CaptureWorker.RetrieveSpec | src/scene.cpp:246-296 | the director takes the sample when the slot is full and marks it empty |
| CaptureWorker.FirstFrameSkipped | src/capture.cpp:71 | the first frame is neither differenced nor published; it becomes the previous frame and the counter becomes 0 |
| CaptureWorker.Differences | src/capture.cpp:71 | the test `if(processedFrameNum + 1)` on the 32-bit counter, false only when the sum wraps to 0 |
| CaptureWorker.SkipsOnlyAtWrap | src/capture.cpp:71 | a frame is skipped exactly when the counter is `(unsigned)-1` |
| CaptureWorker.CompletedIterationAdvances | src/capture.cpp:132-137 | every completed iteration moves the counter on by one modulo 2^32 and keeps its frame as the previous one; other outcomes leave both alone |
| CaptureWorker.SlotNeverOverwritten | src/capture.cpp:116-121 | while the slot holds a sample nothing overwrites it; a publication fills an empty slot with this frame and its area, and happens exactly then |
| CaptureWorker.LoopExits | src/capture.cpp:57-66 | the loop ends exactly on a failed read or the stop signal, with `active` false and no new sample; the stop path marks the slot full |
| CaptureWorker.RetrieveAfterPublish | src/capture.cpp:118-121 | the director retrieves exactly the last published area and frame, and the slot is empty afterwards |
| CaptureWorker.ResumeAfterBlock | src/capture.cpp:117-121 | a worker blocked on a full slot changes nothing; once the slot is emptied it wakes and publishes this frame and its area, and counts the frame, whatever the stop flag says; with the flag down that is what running the iteration again gives |
| CaptureWorker.CounterCountsFrames | src/capture.cpp:137 | when the director takes every sample, the counter after `k` frames is its start plus `k` modulo 2^32, and the previous frame is the last one read |
| CaptureWorker.Capture.constructor | src/capture.cpp:8-17 | a new capture has its name and source, the counter at `(unsigned)-1`, an empty slot and is not active |
| CaptureWorker.Capture.Iterate | src/capture.cpp:56-138 | one iteration of the worker's loop leaves exactly the state and outcome `IterateSpec` gives |
| CaptureWorker.Capture.Wake | src/capture.cpp:117-137 | the rest of a blocked iteration once the wait returns leaves exactly the state `FinishSpec` gives |
| CaptureWorker.Capture.Retrieve | src/scene.cpp:246-296 | the director takes the sample when the slot is full and marks it empty |
| CaptureWorker.Capture.SameAs | src/capture.cpp:26-28 | `operator==`: two captures are equal when their names are |
| CaptureWorker.SameAsIsEquivalence | src/capture.cpp:26-28 | capture equality compares names only and is an equivalence |
| CaptureWorker.Crop | src/capture.cpp:30-32 | a crop fails exactly when the rectangle leaves the image; otherwise it is the rectangle's pixels, row by row |
| CaptureWorker.CropWholeImage | src/capture.cpp:30-32 | cropping the whole image gives the image back |
| CaptureWorker.CropOfCrop | src/capture.cpp:30-32 | a crop of a crop is one crop of the original with the offsets added |

## Left out

- Threads, the mutex and the condition variable. The worker and the director are modelled one step at a time. A worker that would wait on a full slot returns `Blocked` instead. Once the slot is emptied it resumes through `Wake`, which publishes and counts the frame whatever the stop flag says by then; `ResumeAfterBlock` shows this equals running `Iterate` again only while the stop flag is down.
- The interleaving of the two threads is not modelled. So the model does not follow a stop that arrives while the worker waits: the worker still publishes one more sample and advances `processedFrameNum` before its next iteration sees the stop.
- The stop-signal `break` inside the director's scan (`scene.cpp:248-253`) is modelled only by `WinnerAsWrittenStoppedAt`, the winner it leaves. The stop check at the end of the cycle (`scene.cpp:312-318`) is not modelled. `Cycle` models a cycle that completes.
- The director's cycle sees one snapshot of the flags: the check that some camera is active (`scene.cpp:221-228`) and the scan (`scene.cpp:243-256`) read the same flags, and `Cycle` runs only on a snapshot with some camera active (`Ready`). The source reads each flag again after its wait, and a worker whose stream ends clears its flag (`capture.cpp:139`) without the lock and without a notify. So the model does not capture a flag that falls between the check and the scan: when it falls before the director's wait, the scan skips that camera, and when every camera ends this way nothing is selected and the vote is cast at -1 (see Findings); when it falls while the director already waits, the director is never woken.
- OpenCV image processing is not modelled: grey conversion, blur, absdiff, dilate, threshold, findContours and contourArea. Their result enters as the list of contour areas. The column crop 1000..3200 of every frame (`capture.cpp:61`) and the worker's frame pixels are not modelled either; a `Frame` is only its position in the stream.
- Floating point: areas and scores are reals, with no rounding, infinity or NaN. Only the `alpha` value that `stod` returns can also be an infinity or NaN.
- How a camera's `score` is computed (from area, velocity and weight) is not part of this model. The scores enter the director's cycle as inputs.
- Drawing the general monitor is not modelled: text, resizing, copying tiles. Only the height and tile-offset formulas are.
- `Scene::outputFrame`, `outMultiCamMonitor`, the FPS computation and the FPS file are not modelled, because they are timing and output.
- The console messages and `exit(1)` in the Scene constructor are not modelled. A read error is returned as a value.
- `Capture::display`, `Scene::displayCaptures`, `Scene::releaseCaps`, the destructor and both `operator<<` are not modelled, because they are UI, printing and clean-up.
- The python graph scripts are not modelled.
- `std::stod` and the probe that a camera source opens are parameters (`stod`, `canOpen`), not models of those library calls. Both exceptions of `stod` (`invalid_argument` and `out_of_range`) become the one error `StodInvalidArgument`.
- Creating a `Capture` for each camera line (opening its `VideoCapture`, reading the frame ratio) is not modelled. A camera line appends a `CameraEntry` holding the name, the source and the settings later lines set on it.
- CameraSwitch.Voted: the vote counts are unbounded integers, not 32-bit `int`s. This only matters for more than 2^31 cycles between two commits.
- CaptureWorker.Capture.Iterate: the `waitKey(10)` pause is not modelled.

## Findings

| source | as written | input that shows it | evidently intended | confidence | as-written member | corrected member |
|---|---|---|---|---|---|---|
| src/scene.cpp:261-264, 302 | when no active camera scores above 0, the scan forces the last index only if that last camera is itself active; otherwise `slectedCapture` stays -1 and `selectedFrames[-1]++` writes outside the array. A second route to the same write: a stop seen while waiting on the first active camera breaks the scan (`scene.cpp:252`) with `slectedCapture` still at its initial -1 (`scene.cpp:233`), and the vote at `scene.cpp:302` comes before the stop check; `StopAtFirstActiveMissesWinner` shows it. A third route: every active camera ends its stream after the activity check (`scene.cpp:221-228`) and before the scan reads its flag again (`scene.cpp:256`), so the scan sees no active camera; `AsWrittenMissesWinner` covers that input (all flags false) | two top cameras, the first active with score 0, the second ended (`active = [true, false]`, `score = [0, 0]`) | when no active camera scores above 0, some active camera still wins the cycle (the model uses the last active one) | not executed | CameraSwitch.AsWrittenOutOfBounds | CameraSwitch.SelectWinner |
