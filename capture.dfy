/**
 * The bookkeeping of a camera's worker (`Capture::motionDetection`, src/capture.cpp),
 * run one loop iteration at a time, without OpenCV and without the lock: frames are
 * opaque, the contour areas of the difference image are an input, and the single
 * sample slot shared with the director is the pair `area`/`frame` guarded by
 * `readyToRetrive`. Also `Capture::operator==` and `Capture::crop`.
 */
module CaptureWorker {
  import opened Wrappers
  import opened CppText

  // `processedFrameNum` is an `unsigned int`: it wraps modulo UINT_MOD.

  /** Contours smaller than this many pixels are noise. */
  const MIN_AREA: real := 50.0

  // ---------------------------------------------------------------------------
  // The area of a difference image
  // ---------------------------------------------------------------------------

  /** The total area of the contours that are not noise. */
  function AreaSum(areas: seq<real>): real {
    if areas == [] then 0.0
    else AreaSum(areas[..|areas| - 1]) + (if areas[|areas| - 1] < MIN_AREA then 0.0 else areas[|areas| - 1])
  }

  /** The contours that count, in order: every area of at least 50, and nothing else. */
  function Kept(areas: seq<real>): (k: seq<real>)
    ensures forall j :: 0 <= j < |k| ==> k[j] >= MIN_AREA
    ensures forall x :: x in k <==> x in areas && x >= MIN_AREA
    ensures |k| <= |areas|
    ensures (forall j :: 0 <= j < |areas| ==> areas[j] >= MIN_AREA) ==> k == areas
  {
    if areas == [] then []
    else Kept(areas[..|areas| - 1]) + (if areas[|areas| - 1] < MIN_AREA then [] else [areas[|areas| - 1]])
  }

  /** Filtering keeps the order of the contours: it distributes over concatenation. */
  lemma {:induction false} KeptAppend(xs: seq<real>, ys: seq<real>)
    ensures Kept(xs + ys) == Kept(xs) + Kept(ys)
    decreases |ys|
  {
    if ys == [] {
      assert xs + ys == xs;
    } else {
      var init, last := ys[..|ys| - 1], ys[|ys| - 1];
      assert (xs + ys)[..|xs + ys| - 1] == xs + init;
      KeptAppend(xs, init);
    }
  }

  function Total(xs: seq<real>): real {
    if xs == [] then 0.0 else Total(xs[..|xs| - 1]) + xs[|xs| - 1]
  }

  /** The loop over the contours: noise is skipped, every other area is added. */
  method TotalArea(areas: seq<real>) returns (totalArea: real)
    ensures totalArea == AreaSum(areas)
  {
    totalArea := 0.0;
    for i := 0 to |areas|
      invariant totalArea == AreaSum(areas[..i])
    {
      assert areas[..i + 1][..i] == areas[..i];
      if areas[i] < MIN_AREA {
        continue;
      }
      totalArea := totalArea + areas[i];
    }
    assert areas[..|areas|] == areas;
  }

  lemma {:induction false} TotalAppend(xs: seq<real>, ys: seq<real>)
    ensures Total(xs + ys) == Total(xs) + Total(ys)
    decreases |ys|
  {
    if ys == [] {
      assert xs + ys == xs;
    } else {
      assert (xs + ys)[..|xs + ys| - 1] == xs + ys[..|ys| - 1];
      TotalAppend(xs, ys[..|ys| - 1]);
    }
  }

  /** The area is the plain sum of the contours that are kept. */
  lemma {:induction false} AreaSumIsTotalOfKept(areas: seq<real>)
    ensures AreaSum(areas) == Total(Kept(areas))
  {
    if areas != [] {
      var init, last := areas[..|areas| - 1], areas[|areas| - 1];
      AreaSumIsTotalOfKept(init);
      TotalAppend(Kept(init), if last < MIN_AREA then [] else [last]);
      assert Total([last]) == Total([]) + last;
    }
  }

  /**
   * The area never goes negative, whatever the contours: every area added is at least
   * 50. It is 0 exactly when every contour is noise.
   */
  lemma {:induction false} AreaSumBounds(areas: seq<real>)
    ensures AreaSum(areas) >= 0.0
    ensures AreaSum(areas) == 0.0 <==> forall j :: 0 <= j < |areas| ==> areas[j] < MIN_AREA
    ensures AreaSum(areas) >= MIN_AREA * |Kept(areas)| as real
  {
    if areas != [] {
      var init := areas[..|areas| - 1];
      AreaSumBounds(init);
      assert forall j :: 0 <= j < |init| ==> init[j] == areas[j];
    }
  }

  /** A noise contour, wherever it sits, changes nothing. */
  lemma {:induction false} NoiseIgnored(before: seq<real>, x: real, after: seq<real>)
    requires x < MIN_AREA
    ensures AreaSum(before + [x] + after) == AreaSum(before + after)
    decreases |after|
  {
    if after == [] {
      assert before + [x] + after == before + [x];
      assert (before + [x])[..|before|] == before;
      assert before + after == before;
    } else {
      var init := after[..|after| - 1];
      assert (before + [x] + after)[..|before + [x] + after| - 1] == before + [x] + init;
      assert (before + after)[..|before + after| - 1] == before + init;
      NoiseIgnored(before, x, init);
    }
  }

  // ---------------------------------------------------------------------------
  // The worker's state and one iteration of its loop
  // ---------------------------------------------------------------------------

  /** A video frame, known by its position in the stream (the pixels are not modelled). */
  datatype Frame = Frame(index: nat)

  /** What one iteration of the worker's loop did. */
  datatype Outcome =
    | Ended       // the stream had no more frames: the loop ends
    | Stopped     // the stop signal was seen: the slot is marked full and the loop ends
    | Skipped     // the first frame: nothing to difference it with, nothing published
    | Published   // the area and the frame were put in the slot
    | Blocked     // the slot is still full: the worker waits for the director to empty it

  /** The worker's fields, as a value. */
  datatype Worker = Worker(
    processedFrameNum: nat,
    readyToRetrive: bool,
    active: bool,
    area: real,
    frame: Option<Frame>,
    previous: Option<Frame>)

  /** The state the constructor leaves: counter at `(unsigned)-1`, slot empty, not active. */
  function InitialWorker(): Worker {
    Worker(UINT_MOD - 1, false, false, 0.0, None, None)
  }

  /** The worker differences the current frame with the previous one unless `processedFrameNum + 1` is 0. */
  predicate Differences(processedFrameNum: nat) {
    (processedFrameNum + 1) % UINT_MOD != 0
  }

  /**
   * One iteration, given the result of `read`, the stop flag and the contour areas of
   * the difference image.
   */
  function IterateSpec(w: Worker, read: Option<Frame>, stop: bool, areas: seq<real>): (Worker, Outcome) {
    if read.None? then (w.(active := false), Ended)
    else if stop then (w.(readyToRetrive := true, active := false), Stopped)
    else if Differences(w.processedFrameNum) && w.readyToRetrive then (w.(active := true), Blocked)
    else
      var published := Differences(w.processedFrameNum);
      (FinishSpec(w, read.value, published, areas), if published then Published else Skipped)
  }

  /**
   * The end of an iteration past the stop check and the wait: the sample is published
   * when the frame was differenced, the frame becomes the previous one, and it is counted.
   */
  function FinishSpec(w: Worker, f: Frame, publish: bool, areas: seq<real>): Worker {
    var w1 := if publish then w.(area := AreaSum(areas), frame := Some(f), readyToRetrive := true) else w;
    w1.(active := true, previous := Some(f), processedFrameNum := (w.processedFrameNum + 1) % UINT_MOD)
  }

  /** What the director does with the slot: takes the sample if there is one, and empties it. */
  function RetrieveSpec(w: Worker): (Worker, Option<(real, Option<Frame>)>) {
    (w.(readyToRetrive := false), if w.readyToRetrive then Some((w.area, w.frame)) else None)
  }

  /** The very first frame is never differenced nor published; it becomes the previous frame. */
  lemma FirstFrameSkipped(f: Frame, areas: seq<real>)
    ensures IterateSpec(InitialWorker(), Some(f), false, areas).1 == Skipped
    ensures var w := IterateSpec(InitialWorker(), Some(f), false, areas).0;
            && w.processedFrameNum == 0 && !w.readyToRetrive && w.frame == None
            && w.previous == Some(f) && w.active
  {
  }

  /**
   * Only a counter at `(unsigned)-1` skips: after the first frame the worker differences
   * every frame until the counter wraps around, 2^32 frames later.
   */
  lemma SkipsOnlyAtWrap(w: Worker, f: Frame, areas: seq<real>)
    requires w.processedFrameNum < UINT_MOD
    ensures IterateSpec(w, Some(f), false, areas).1 == Skipped <==> w.processedFrameNum == UINT_MOD - 1
  {
  }

  /**
   * Every iteration that completes moves the counter on by one and keeps the frame it
   * read as the previous frame; the other outcomes leave both alone.
   */
  lemma CompletedIterationAdvances(w: Worker, read: Option<Frame>, stop: bool, areas: seq<real>)
    ensures var (w', o) := IterateSpec(w, read, stop, areas);
            && (o == Skipped || o == Published ==>
                  w'.processedFrameNum == (w.processedFrameNum + 1) % UINT_MOD && w'.previous == read)
            && (o != Skipped && o != Published ==>
                  w'.processedFrameNum == w.processedFrameNum && w'.previous == w.previous)
  {
  }

  /**
   * The slot is never overwritten: while it holds a sample, no iteration changes the area
   * or the frame in it. A publication fills an empty slot with this frame and its area.
   */
  lemma SlotNeverOverwritten(w: Worker, read: Option<Frame>, stop: bool, areas: seq<real>)
    ensures var (w', o) := IterateSpec(w, read, stop, areas);
            && (w.readyToRetrive ==> w'.area == w.area && w'.frame == w.frame && w'.readyToRetrive)
            && (o == Published <==> read.Some? && !stop && !w.readyToRetrive && Differences(w.processedFrameNum))
            && (o == Published ==> w'.readyToRetrive && w'.area == AreaSum(areas) && w'.frame == read)
  {
  }

  /**
   * The loop ends on a failed read or on the stop signal, with `active` false and no new
   * sample; the stop path marks the slot full so that the director does not wait forever.
   */
  lemma LoopExits(w: Worker, read: Option<Frame>, stop: bool, areas: seq<real>)
    ensures var (w', o) := IterateSpec(w, read, stop, areas);
            && (o == Ended <==> read.None?)
            && (o == Stopped <==> read.Some? && stop)
            && (o == Ended || o == Stopped ==> !w'.active && w'.area == w.area && w'.frame == w.frame)
            && (o == Stopped ==> w'.readyToRetrive)
            && (o != Ended && o != Stopped ==> w'.active)
  {
  }

  /** A retrieved sample is the last one published, and the slot is empty afterwards. */
  lemma RetrieveAfterPublish(w: Worker, f: Frame, areas: seq<real>)
    requires IterateSpec(w, Some(f), false, areas).1 == Published
    ensures var (w', sample) := RetrieveSpec(IterateSpec(w, Some(f), false, areas).0);
            sample == Some((AreaSum(areas), Some(f))) && !w'.readyToRetrive
  {
  }

  /**
   * A blocked iteration has touched nothing but `active`. The stop flag was checked before
   * the wait, so once the director has emptied the slot the worker wakes and publishes this
   * frame's area, keeps the frame and counts it, whatever the flag says by then; when the
   * flag is still down, that is exactly what running the iteration again would do.
   */
  lemma ResumeAfterBlock(w: Worker, f: Frame, areas: seq<real>)
    requires IterateSpec(w, Some(f), false, areas).1 == Blocked
    ensures var blocked := IterateSpec(w, Some(f), false, areas).0;
            && blocked == w.(active := true)
            && var woken := FinishSpec(RetrieveSpec(blocked).0, f, true, areas);
               && woken.readyToRetrive && woken.area == AreaSum(areas) && woken.frame == Some(f)
               && woken.previous == Some(f) && woken.active
               && woken.processedFrameNum == (w.processedFrameNum + 1) % UINT_MOD
               && IterateSpec(RetrieveSpec(blocked).0, Some(f), false, areas) == (woken, Published)
  {
  }

  /** The director takes one sample per cycle, then the worker runs one iteration on the next frame. */
  function Exchange(w: Worker, f: Frame, areas: seq<real>): Worker {
    IterateSpec(RetrieveSpec(w).0, Some(f), false, areas).0
  }

  /** Frames read one after another, each followed by the director taking the sample. */
  function Exchanges(w: Worker, frames: seq<Frame>, areas: seq<seq<real>>): Worker
    requires |frames| == |areas|
    decreases |frames|
  {
    if frames == [] then w
    else Exchanges(Exchange(w, frames[0], areas[0]), frames[1..], areas[1..])
  }

  /**
   * With the director taking every sample, `k` frames after the start the counter reads
   * `k - 1` (mod 2^32): no iteration blocks and every one of them is counted.
   */
  lemma {:induction false} CounterCountsFrames(w: Worker, frames: seq<Frame>, areas: seq<seq<real>>)
    requires |frames| == |areas| && w.processedFrameNum < UINT_MOD
    ensures Exchanges(w, frames, areas).processedFrameNum == (w.processedFrameNum + |frames|) % UINT_MOD
    ensures frames != [] ==> Exchanges(w, frames, areas).previous == Some(frames[|frames| - 1])
    decreases |frames|
  {
    if frames != [] {
      var w1 := Exchange(w, frames[0], areas[0]);
      CounterCountsFrames(w1, frames[1..], areas[1..]);
      assert (w1.processedFrameNum + |frames[1..]|) % UINT_MOD == (w.processedFrameNum + |frames|) % UINT_MOD;
      if |frames| > 1 {
        assert frames[1..][|frames[1..]| - 1] == frames[|frames| - 1];
      }
    }
  }

  // ---------------------------------------------------------------------------
  // The Capture object
  // ---------------------------------------------------------------------------

  /** A camera's capture: its name and source, and the fields its worker updates in place. */
  class Capture {
    const capName: string
    const source: string
    var processedFrameNum: nat
    var readyToRetrive: bool
    var active: bool
    var area: real
    var frame: Option<Frame>
    var previous: Option<Frame>

    function State(): Worker
      reads this
    {
      Worker(processedFrameNum, readyToRetrive, active, area, frame, previous)
    }

    constructor (capName: string, source: string)
      ensures this.capName == capName && this.source == source
      ensures State() == InitialWorker()
    {
      this.capName := capName;
      this.source := source;
      processedFrameNum := UINT_MOD - 1;
      readyToRetrive := false;
      area := 0.0;
      active := false;
      frame := None;
      previous := None;
    }

    /** `operator==`: two captures are the same camera when their names are equal. */
    predicate SameAs(other: Capture) {
      capName == other.capName
    }

    /** One iteration of `motionDetection`'s loop (and, when it ends the loop, the `active = false` after it). */
    method Iterate(read: Option<Frame>, stop: bool, areas: seq<real>) returns (o: Outcome)
      requires processedFrameNum < UINT_MOD
      modifies this
      ensures (State(), o) == IterateSpec(old(State()), read, stop, areas)
      ensures processedFrameNum < UINT_MOD
    {
      active := true;
      if read.None? {
        active := false;
        return Ended;
      }
      if stop {
        readyToRetrive := true;
        active := false;
        return Stopped;
      }
      var differenced := (processedFrameNum + 1) % UINT_MOD != 0;
      if differenced {
        var totalArea := TotalArea(areas);
        if readyToRetrive {
          return Blocked;
        }
        area := totalArea;
        frame := read;
        readyToRetrive := true;
        o := Published;
      } else {
        o := Skipped;
      }
      previous := read;
      processedFrameNum := (processedFrameNum + 1) % UINT_MOD;
    }

    /**
     * The rest of an iteration that blocked on a full slot, once the wait returns: the
     * area and the frame go into the slot, and the frame is kept and counted.
     */
    method Wake(f: Frame, areas: seq<real>)
      requires processedFrameNum < UINT_MOD
      modifies this
      ensures State() == FinishSpec(old(State()), f, true, areas)
      ensures processedFrameNum < UINT_MOD
    {
      var totalArea := TotalArea(areas);
      area := totalArea;
      frame := Some(f);
      readyToRetrive := true;
      active := true;
      previous := Some(f);
      processedFrameNum := (processedFrameNum + 1) % UINT_MOD;
    }

    /** The director's side of the slot: take the sample if there is one, then mark the slot empty. */
    method Retrieve() returns (sample: Option<(real, Option<Frame>)>)
      modifies this
      ensures (State(), sample) == RetrieveSpec(old(State()))
    {
      sample := if readyToRetrive then Some((area, frame)) else None;
      readyToRetrive := false;
    }
  }

  /** Equality of captures is an equivalence: it compares names only. */
  lemma SameAsIsEquivalence(a: Capture, b: Capture, c: Capture)
    ensures a.SameAs(a)
    ensures a.SameAs(b) <==> b.SameAs(a)
    ensures a.SameAs(b) && b.SameAs(c) ==> a.SameAs(c)
    ensures a.SameAs(b) <==> a.capName == b.capName
  {
  }

  // ---------------------------------------------------------------------------
  // Capture::crop
  // ---------------------------------------------------------------------------

  /** A `cv::Rect`: top-left corner and size. */
  datatype Rect = Rect(x: int, y: int, width: int, height: int)

  /** An image: rows of pixels, all of the same width. */
  predicate Rectangular<P>(img: seq<seq<P>>) {
    forall r :: 0 <= r < |img| ==> |img[r]| == Cols(img)
  }

  function Cols<P>(img: seq<seq<P>>): nat {
    if img == [] then 0 else |img[0]|
  }

  /** The rectangle lies inside the image (what OpenCV asserts before taking a region). */
  predicate Inside<P>(rect: Rect, img: seq<seq<P>>) {
    && 0 <= rect.x && 0 <= rect.width && rect.x + rect.width <= Cols(img)
    && 0 <= rect.y && 0 <= rect.height && rect.y + rect.height <= |img|
  }

  /** Why a crop fails: OpenCV throws when the region leaves the image. */
  datatype CropError = RegionOutsideImage

  /** `uncuttedFrame(cropRect).clone()`: the pixels of the region, or the exception. */
  function Crop<P>(rect: Rect, img: seq<seq<P>>): (r: Result<seq<seq<P>>, CropError>)
    requires Rectangular(img)
    ensures r.Ok? <==> Inside(rect, img)
    ensures r.Ok? ==> |r.value| == rect.height && Rectangular(r.value)
    ensures r.Ok? ==> forall i :: 0 <= i < rect.height ==> |r.value[i]| == rect.width
    ensures r.Ok? ==> forall i, j :: 0 <= i < rect.height && 0 <= j < rect.width ==>
      r.value[i][j] == img[rect.y + i][rect.x + j]
  {
    if !Inside(rect, img) then Err(RegionOutsideImage)
    else Ok(seq(rect.height, i requires 0 <= i < rect.height => img[rect.y + i][rect.x .. rect.x + rect.width]))
  }

  /** Cropping the whole image gives the image back. */
  lemma CropWholeImage<P>(img: seq<seq<P>>)
    requires Rectangular(img)
    ensures Crop(Rect(0, 0, Cols(img), |img|), img) == Ok(img)
  {
    var r := Crop(Rect(0, 0, Cols(img), |img|), img);
    assert |r.value| == |img|;
    forall i | 0 <= i < |img|
      ensures r.value[i] == img[i]
    {
      assert |r.value[i]| == |img[i]|;
    }
    assert r.value == img;
  }

  /** A crop of a crop is one crop of the original, with the offsets added. */
  lemma CropOfCrop<P>(img: seq<seq<P>>, outer: Rect, inner: Rect)
    requires Rectangular(img) && Inside(outer, img)
    requires Inside(inner, Crop(outer, img).value)
    ensures Crop(inner, Crop(outer, img).value)
         == Crop(Rect(outer.x + inner.x, outer.y + inner.y, inner.width, inner.height), img)
  {
    var mid := Crop(outer, img).value;
    if outer.height > 0 {
      assert Cols(mid) == outer.width;
    }
    var a := Crop(inner, mid);
    var b := Crop(Rect(outer.x + inner.x, outer.y + inner.y, inner.width, inner.height), img);
    assert b.Ok?;
    forall i | 0 <= i < inner.height
      ensures a.value[i] == b.value[i]
    {
      assert |a.value[i]| == inner.width == |b.value[i]|;
      forall j | 0 <= j < inner.width
        ensures a.value[i][j] == b.value[i][j]
      {
        assert a.value[i][j] == mid[inner.y + i][inner.x + j];
      }
    }
    assert |a.value| == |b.value|;
    assert a.value == b.value;
  }
}
