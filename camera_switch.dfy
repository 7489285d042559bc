/**
 * The director's switching logic (`Scene::cameraSwitch`, src/scene.cpp), without its
 * threads and images. Every cycle the top cameras are scanned in order and one camera
 * wins the cycle; the winner gets a vote; every `smoothing` cycles the camera with the
 * most votes (the first one on a tie) becomes the shown camera and the votes restart.
 */
module CameraSwitch {
  import opened CppText

  // `frameNum` is an `unsigned int`: it wraps modulo UINT_MOD.

  // ---------------------------------------------------------------------------
  // The winner of one cycle
  // ---------------------------------------------------------------------------

  /** The score the scan compares against once `w` leads (`maxMomentum`): 0 before any leader. */
  function Best(score: seq<real>, w: int): real
    requires -1 <= w < |score|
  {
    if w == -1 then 0.0 else score[w]
  }

  /**
   * The leader after scanning cameras `0..i-1`: an active camera takes the lead when its
   * score is strictly above the current best; -1 while no camera has led.
   */
  function Leader(active: seq<bool>, score: seq<real>, i: nat): (w: int)
    requires |active| == |score| && i <= |active|
    ensures -1 <= w < i
    ensures w != -1 ==> active[w] && score[w] > 0.0
  {
    if i == 0 then -1
    else
      var w := Leader(active, score, i - 1);
      if active[i - 1] && score[i - 1] > Best(score, w) then i - 1 else w
  }

  /** The last active camera among `0..i-1`, or -1. */
  function LastActive(active: seq<bool>, i: nat): (w: int)
    requires i <= |active|
    ensures -1 <= w < i
    ensures w != -1 ==> active[w]
  {
    if i == 0 then -1
    else if active[i - 1] then i - 1
    else LastActive(active, i - 1)
  }

  /**
   * The winner of a cycle as the scan is written: the leader, or, when no camera led,
   * the last index, but only if that camera is active itself. Otherwise -1 remains, and
   * the vote that follows indexes the vote array at -1.
   */
  function WinnerAsWritten(active: seq<bool>, score: seq<real>): int
    requires |active| == |score|
  {
    var n := |active|;
    var l := Leader(active, score, n);
    if l == -1 && n > 0 && active[n - 1] then n - 1 else l
  }

  /**
   * The winner of a cycle: the leader, or, when no active camera scores above 0, the
   * last active camera.
   */
  function Winner(active: seq<bool>, score: seq<real>): int
    requires |active| == |score|
  {
    var l := Leader(active, score, |active|);
    if l == -1 then LastActive(active, |active|) else l
  }

  predicate SomeActive(active: seq<bool>) {
    exists j :: 0 <= j < |active| && active[j]
  }

  /** The scan over the cameras, in index order, with the fallback to the last active camera. */
  method SelectWinner(active: seq<bool>, score: seq<real>) returns (w: int)
    requires |active| == |score|
    ensures w == Winner(active, score)
    ensures SomeActive(active) ==> 0 <= w < |active| && active[w]
  {
    var maxMomentum := 0.0;
    var lastActive := -1;
    w := -1;
    for i := 0 to |active|
      invariant w == Leader(active, score, i)
      invariant maxMomentum == Best(score, w)
      invariant lastActive == LastActive(active, i)
    {
      if active[i] {
        if score[i] > maxMomentum {
          maxMomentum := score[i];
          w := i;
        }
        lastActive := i;
      }
    }
    if w == -1 {
      w := lastActive;
    }
    if SomeActive(active) {
      LastActiveFound(active, |active|);
    }
  }

  /** The leader is the first camera with the highest score among the active ones that score above 0. */
  lemma {:induction false} LeaderIsFirstBest(active: seq<bool>, score: seq<real>, i: nat)
    requires |active| == |score| && i <= |active|
    ensures Leader(active, score, i) == -1 <==> forall j :: 0 <= j < i && active[j] ==> score[j] <= 0.0
    ensures var w := Leader(active, score, i);
            w != -1 ==> && (forall j :: 0 <= j < i && active[j] ==> score[j] <= score[w])
                        && (forall j :: 0 <= j < w && active[j] ==> score[j] < score[w])
  {
    if i > 0 {
      LeaderIsFirstBest(active, score, i - 1);
    }
  }

  /** LastActive finds an active camera whenever one exists, and no later camera is active. */
  lemma {:induction false} LastActiveFound(active: seq<bool>, i: nat)
    requires i <= |active|
    ensures LastActive(active, i) == -1 <==> forall j :: 0 <= j < i ==> !active[j]
    ensures forall j :: LastActive(active, i) < j < i ==> !active[j]
  {
    if i > 0 {
      LastActiveFound(active, i - 1);
    }
  }

  /**
   * When an active camera scores above 0, the winner is the lowest-index active camera
   * with the highest score; otherwise it is the last active camera. Either way, when
   * some camera is active the winner is an active camera.
   */
  lemma WinnerIsBestActive(active: seq<bool>, score: seq<real>)
    requires |active| == |score|
    ensures var w := Winner(active, score);
            (exists j :: 0 <= j < |active| && active[j] && score[j] > 0.0) ==>
              && 0 <= w < |active| && active[w] && score[w] > 0.0
              && (forall j :: 0 <= j < |active| && active[j] ==> score[j] <= score[w])
              && (forall j :: 0 <= j < w && active[j] ==> score[j] < score[w])
    ensures var w := Winner(active, score);
            (forall j :: 0 <= j < |active| && active[j] ==> score[j] <= 0.0) ==>
              w == LastActive(active, |active|) && (forall j :: w < j < |active| ==> !active[j])
    ensures SomeActive(active) ==> 0 <= Winner(active, score) < |active| && active[Winner(active, score)]
  {
    LeaderIsFirstBest(active, score, |active|);
    LastActiveFound(active, |active|);
  }

  /** Where the last camera is active, the scan as written and the corrected one agree. */
  lemma AsWrittenAgreesWhenLastActive(active: seq<bool>, score: seq<real>)
    requires |active| == |score| && |active| > 0 && active[|active| - 1]
    ensures WinnerAsWritten(active, score) == Winner(active, score)
  {
  }

  /**
   * The scan as written leaves the winner at -1 exactly when no active camera scores
   * above 0 and the last camera is not active, even if another camera is active.
   */
  lemma AsWrittenMissesWinner(active: seq<bool>, score: seq<real>)
    requires |active| == |score|
    ensures WinnerAsWritten(active, score) == -1 <==>
      (forall j :: 0 <= j < |active| && active[j] ==> score[j] <= 0.0)
      && (|active| == 0 || !active[|active| - 1])
  {
    LeaderIsFirstBest(active, score, |active|);
  }

  /** Two cameras, the first active and still, the second ended: the scan as written picks -1. */
  lemma AsWrittenOutOfBounds()
    ensures SomeActive([true, false])
    ensures WinnerAsWritten([true, false], [0.0, 0.0]) == -1
    ensures Winner([true, false], [0.0, 0.0]) == 0
  {
    var active, score := [true, false], [0.0, 0.0];
    assert active[0];
    assert Leader(active, score, 1) == -1;
    assert Leader(active, score, 2) == -1;
    assert LastActive(active, 2) == LastActive(active, 1) == 0;
  }

  /**
   * The scan as written when the stop signal is seen at the wait of active camera `i`:
   * the scan breaks there, and the winner is whatever led among the cameras before `i`.
   */
  function WinnerAsWrittenStoppedAt(active: seq<bool>, score: seq<real>, i: nat): int
    requires |active| == |score| && i < |active| && active[i]
  {
    Leader(active, score, i)
  }

  /**
   * A stop seen while waiting on the first active camera leaves the winner at -1, and the
   * vote that follows the scan indexes the vote array at -1 before the stop is handled.
   */
  lemma StopAtFirstActiveMissesWinner(active: seq<bool>, score: seq<real>, i: nat)
    requires |active| == |score| && i < |active| && active[i]
    requires forall j :: 0 <= j < i ==> !active[j]
    ensures WinnerAsWrittenStoppedAt(active, score, i) == -1
  {
    LeaderIsFirstBest(active, score, i);
  }

  // ---------------------------------------------------------------------------
  // Votes and commits
  // ---------------------------------------------------------------------------

  function Sum(v: seq<int>): int {
    if v == [] then 0 else Sum(v[..|v| - 1]) + v[|v| - 1]
  }

  function Zeros(n: nat): (z: seq<int>)
    ensures |z| == n && forall j :: 0 <= j < n ==> z[j] == 0
  {
    seq(n, _ => 0)
  }

  /** The first index of a largest element among `v[0..i-1]` (what `std::max_element` returns). */
  function FirstMaxIn(v: seq<int>, i: nat): (m: nat)
    requires 1 <= i <= |v|
    ensures m < i
  {
    if i == 1 then 0
    else
      var m := FirstMaxIn(v, i - 1);
      if v[i - 1] > v[m] then i - 1 else m
  }

  function FirstArgmax(v: seq<int>): nat
    requires |v| > 0
  {
    FirstMaxIn(v, |v|)
  }

  lemma {:induction false} FirstMaxInIsFirstLargest(v: seq<int>, i: nat)
    requires 1 <= i <= |v|
    ensures forall j :: 0 <= j < i ==> v[j] <= v[FirstMaxIn(v, i)]
    ensures forall j :: 0 <= j < FirstMaxIn(v, i) ==> v[j] < v[FirstMaxIn(v, i)]
  {
    if i > 1 {
      FirstMaxInIsFirstLargest(v, i - 1);
    }
  }

  /** FirstArgmax is the first index of a largest element. */
  lemma FirstArgmaxIsFirstLargest(v: seq<int>)
    requires |v| > 0
    ensures FirstArgmax(v) < |v|
    ensures forall j :: 0 <= j < |v| ==> v[j] <= v[FirstArgmax(v)]
    ensures forall j :: 0 <= j < FirstArgmax(v) ==> v[j] < v[FirstArgmax(v)]
  {
    FirstMaxInIsFirstLargest(v, |v|);
  }

  /** Where the largest element sits is decided by the two properties above: it is unique. */
  lemma FirstLargestUnique(v: seq<int>, m: nat)
    requires m < |v|
    requires forall j :: 0 <= j < |v| ==> v[j] <= v[m]
    requires forall j :: 0 <= j < m ==> v[j] < v[m]
    ensures FirstArgmax(v) == m
  {
    FirstArgmaxIsFirstLargest(v);
  }

  /** The director's state between cycles: the votes, the shown camera and the cycle counter. */
  datatype SwitchState = SwitchState(votes: seq<int>, shown: int, frameNum: nat)

  /** The state before the first cycle: no votes, camera 0 shown, counter 0. */
  function Initial(n: nat): SwitchState {
    SwitchState(Zeros(n), 0, 0)
  }

  /** The cameras' activity and scores seen by one cycle. */
  datatype Sample = Sample(active: seq<bool>, score: seq<real>)

  /** A cycle sees one snapshot of the flags, with some camera active, and one flag and one score per camera. */
  predicate Ready(n: nat, c: Sample) {
    |c.active| == n && |c.score| == n && SomeActive(c.active)
  }

  /** A commit happens on the cycles whose counter is a multiple of `smoothing`. */
  predicate Commits(frameNum: nat, smoothing: int)
    requires smoothing > 0
  {
    frameNum % smoothing == 0
  }

  /** One cycle: a vote for the winner, then, on a commit cycle, the new shown camera and fresh votes. */
  function Step(st: SwitchState, smoothing: int, c: Sample): SwitchState
    requires smoothing > 0 && Ready(|st.votes|, c)
  {
    WinnerIsBestActive(c.active, c.score);
    var w := Winner(c.active, c.score);
    var v := Voted(st.votes, w);
    if Commits(st.frameNum, smoothing) then SwitchState(Zeros(|v|), FirstArgmax(v), (st.frameNum + 1) % UINT_MOD)
    else SwitchState(v, st.shown, (st.frameNum + 1) % UINT_MOD)
  }

  /** Cycles one after another. */
  function Run(st: SwitchState, smoothing: int, cycles: seq<Sample>): SwitchState
    requires smoothing > 0 && forall k :: 0 <= k < |cycles| ==> Ready(|st.votes|, cycles[k])
    decreases |cycles|
  {
    if cycles == [] then st
    else
      StepKeepsCameras(st, smoothing, cycles[0]);
      Run(Step(st, smoothing, cycles[0]), smoothing, cycles[1..])
  }

  lemma StepKeepsCameras(st: SwitchState, smoothing: int, c: Sample)
    requires smoothing > 0 && Ready(|st.votes|, c)
    ensures |Step(st, smoothing, c).votes| == |st.votes|
  {
    WinnerIsBestActive(c.active, c.score);
  }

  lemma {:induction false} SumSet(v: seq<int>, w: nat, x: int)
    requires w < |v|
    ensures Sum(v[w := x]) == Sum(v) - v[w] + x
  {
    var u := v[w := x];
    if w < |v| - 1 {
      assert u[..|u| - 1] == v[..|v| - 1][w := x];
      SumSet(v[..|v| - 1], w, x);
    } else {
      assert u[..|u| - 1] == v[..|v| - 1];
    }
  }

  lemma {:induction false} SumZeros(n: nat)
    ensures Sum(Zeros(n)) == 0
  {
    if n > 0 {
      assert Zeros(n)[..n - 1] == Zeros(n - 1);
      SumZeros(n - 1);
    }
  }

  /** The counts after this cycle's vote for `w`. */
  function Voted(votes: seq<int>, w: nat): (v: seq<int>)
    requires w < |votes|
    ensures |v| == |votes| && v[w] == votes[w] + 1
    ensures forall j :: 0 <= j < |votes| && j != w ==> v[j] == votes[j]
    ensures Sum(v) == Sum(votes) + 1
  {
    SumSet(votes, w, votes[w] + 1);
    votes[w := votes[w] + 1]
  }

  /**
   * Every cycle counts one vote for its winner, which is an active camera; the counter
   * moves on by one, wrapping at 2^32.
   */
  lemma StepCounts(st: SwitchState, smoothing: int, c: Sample)
    requires smoothing > 0 && Ready(|st.votes|, c)
    ensures var w := Winner(c.active, c.score);
            && 0 <= w < |st.votes| && c.active[w]
            && Step(st, smoothing, c).frameNum == (st.frameNum + 1) % UINT_MOD
  {
    WinnerIsBestActive(c.active, c.score);
  }

  /** A cycle that does not commit adds exactly one vote, to the winner, and keeps the shown camera. */
  lemma StepWithoutCommit(st: SwitchState, smoothing: int, c: Sample)
    requires smoothing > 0 && Ready(|st.votes|, c) && !Commits(st.frameNum, smoothing)
    ensures 0 <= Winner(c.active, c.score) < |st.votes|
    ensures Step(st, smoothing, c).votes == Voted(st.votes, Winner(c.active, c.score))
    ensures Step(st, smoothing, c).shown == st.shown
  {
    WinnerIsBestActive(c.active, c.score);
  }

  /**
   * A commit cycle shows the first camera with the most votes, this cycle's vote
   * included, and restarts every count at 0.
   */
  lemma StepWithCommit(st: SwitchState, smoothing: int, c: Sample)
    requires smoothing > 0 && Ready(|st.votes|, c) && Commits(st.frameNum, smoothing)
    ensures 0 <= Winner(c.active, c.score) < |st.votes|
    ensures var v := Voted(st.votes, Winner(c.active, c.score));
            var shown := Step(st, smoothing, c).shown;
            && 0 <= shown < |v|
            && (forall j :: 0 <= j < |v| ==> v[j] <= v[shown])
            && (forall j :: 0 <= j < shown ==> v[j] < v[shown])
    ensures Step(st, smoothing, c).votes == Zeros(|st.votes|)
    ensures Sum(Step(st, smoothing, c).votes) == 0
  {
    WinnerIsBestActive(c.active, c.score);
    var v := Voted(st.votes, Winner(c.active, c.score));
    FirstArgmaxIsFirstLargest(v);
    SumZeros(|st.votes|);
  }

  /** The very first cycle commits on its single vote: the shown camera becomes that cycle's winner. */
  lemma FirstCycleCommits(n: nat, smoothing: int, c: Sample)
    requires smoothing > 0 && Ready(n, c)
    ensures Step(Initial(n), smoothing, c).shown == Winner(c.active, c.score)
    ensures Step(Initial(n), smoothing, c).votes == Zeros(n)
  {
    WinnerIsBestActive(c.active, c.score);
    var w := Winner(c.active, c.score);
    var v := Zeros(n)[w := 1];
    FirstLargestUnique(v, w);
  }

  /** The counter `k` cycles after `frameNum`. */
  function Later(frameNum: nat, k: nat): nat {
    (frameNum + k) % UINT_MOD
  }

  /** None of the `m` cycles from counter `frameNum` on is a commit cycle. */
  predicate NoCommitWithin(frameNum: nat, smoothing: int, m: nat)
    requires smoothing > 0
  {
    forall k :: 0 <= k < m ==> !Commits(Later(frameNum, k), smoothing)
  }

  /** The first cycle of a window without commits does not commit, and neither does the rest of the window. */
  lemma WindowTail(frameNum: nat, smoothing: int, m: nat)
    requires smoothing > 0 && frameNum < UINT_MOD && m > 0 && NoCommitWithin(frameNum, smoothing, m)
    ensures !Commits(frameNum, smoothing)
    ensures NoCommitWithin((frameNum + 1) % UINT_MOD, smoothing, m - 1)
  {
    assert Later(frameNum, 0) == frameNum;
    var next := (frameNum + 1) % UINT_MOD;
    assert next == if frameNum + 1 < UINT_MOD then frameNum + 1 else 0;
    forall k | 0 <= k < m - 1
      ensures !Commits(Later(next, k), smoothing)
    {
      assert Later(next, k) == Later(frameNum, k + 1);
    }
  }

  /** Between two commit cycles the shown camera does not change. */
  lemma {:induction false} ShownStableBetweenCommits(st: SwitchState, smoothing: int, cycles: seq<Sample>)
    requires smoothing > 0 && forall k :: 0 <= k < |cycles| ==> Ready(|st.votes|, cycles[k])
    requires st.frameNum < UINT_MOD && NoCommitWithin(st.frameNum, smoothing, |cycles|)
    ensures Run(st, smoothing, cycles).shown == st.shown
    decreases |cycles|
  {
    if cycles != [] {
      WindowTail(st.frameNum, smoothing, |cycles|);
      StepWithoutCommit(st, smoothing, cycles[0]);
      StepCounts(st, smoothing, cycles[0]);
      ShownStableBetweenCommits(Step(st, smoothing, cycles[0]), smoothing, cycles[1..]);
    }
  }

  /** Between two commit cycles every cycle adds one vote: the votes count the cycles since the last commit. */
  lemma {:induction false} VotesCountCycles(st: SwitchState, smoothing: int, cycles: seq<Sample>)
    requires smoothing > 0 && forall k :: 0 <= k < |cycles| ==> Ready(|st.votes|, cycles[k])
    requires st.frameNum < UINT_MOD && NoCommitWithin(st.frameNum, smoothing, |cycles|)
    ensures Sum(Run(st, smoothing, cycles).votes) == Sum(st.votes) + |cycles|
    decreases |cycles|
  {
    if cycles != [] {
      WindowTail(st.frameNum, smoothing, |cycles|);
      StepWithoutCommit(st, smoothing, cycles[0]);
      StepCounts(st, smoothing, cycles[0]);
      VotesCountCycles(Step(st, smoothing, cycles[0]), smoothing, cycles[1..]);
    }
  }

  // ---------------------------------------------------------------------------
  // The director's loop state, updated in place
  // ---------------------------------------------------------------------------

  /** `std::max_element` over the vote array: the first index of a largest count. */
  method MaxElement(a: array<int>) returns (idx: nat)
    requires a.Length > 0
    ensures idx == FirstArgmax(a[..])
    ensures idx < a.Length
  {
    idx := 0;
    for i := 1 to a.Length
      invariant idx == FirstMaxIn(a[..], i)
    {
      if a[i] > a[idx] {
        idx := i;
      }
    }
  }

  /** The vote array (`selectedFrames`), the shown camera and the cycle counter of `cameraSwitch`. */
  class Switcher {
    const smoothing: int
    const votes: array<int>
    var shown: int
    var frameNum: nat

    function State(): SwitchState
      reads this, votes
    {
      SwitchState(votes[..], shown, frameNum)
    }

    /** The shown camera is one of the cameras, and the counter fits an `unsigned int`. */
    ghost predicate Valid()
      reads this
    {
      && smoothing > 0
      && frameNum < UINT_MOD
      && 0 <= shown
      && (votes.Length > 0 ==> shown < votes.Length)
    }

    /** `n` top cameras, all counts 0, camera 0 shown, counter 0. */
    constructor (n: nat, smoothing: int)
      requires smoothing > 0
      ensures Valid() && State() == Initial(n) && this.smoothing == smoothing
      ensures fresh(votes)
    {
      this.smoothing := smoothing;
      votes := new int[n](_ => 0);
      shown := 0;
      frameNum := 0;
      new;
      assert votes[..] == Zeros(n);
    }

    /** One pass of the director's loop over cameras with these flags and scores. */
    method Cycle(active: seq<bool>, score: seq<real>) returns (winner: int)
      requires Valid() && Ready(votes.Length, Sample(active, score))
      modifies this, votes
      ensures Valid()
      ensures winner == Winner(active, score)
      ensures State() == Step(old(State()), smoothing, Sample(active, score))
    {
      ghost var st := State();
      winner := SelectWinner(active, score);
      votes[winner] := votes[winner] + 1;
      assert votes[..] == Voted(st.votes, winner);
      if frameNum % smoothing == 0 {
        StepWithCommit(st, smoothing, Sample(active, score));
        var idx := MaxElement(votes);
        for i := 0 to votes.Length
          modifies votes
          invariant forall j :: 0 <= j < i ==> votes[j] == 0
        {
          votes[i] := 0;
        }
        assert votes[..] == Zeros(votes.Length);
        shown := idx;
      } else {
        StepWithoutCommit(st, smoothing, Sample(active, score));
      }
      frameNum := (frameNum + 1) % UINT_MOD;
    }
  }
}
