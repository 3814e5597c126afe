/**
 * Runs of the loop over a sequence of frames, and the properties that relate
 * frames to each other: cooldown spacing of greetings, spacing of
 * enrollments, where the dwell timer comes from, when the tracker resets, and
 * that the identity store only grows.
 */
module Trace {

  import opened Options
  import opened Faces
  import Config
  import Greeting
  import Stability
  import Door

  /** A run of the loop: the state before each frame and after the last, and each frame's effects. */
  datatype Recording = Recording(states: seq<Door.State>, effects: seq<seq<Door.Effect>>)

  /** Frame `i` of the recording is one loop step on its input. */
  predicate Follows(r: Recording, inputs: seq<Door.FrameInput>, distance: (Encoding, Encoding) -> real, asWritten: bool, i: nat) {
    && i < |inputs| && i + 1 < |r.states| && i < |r.effects|
    && var step := Door.Frame(r.states[i], inputs[i], distance, Door.Judges(asWritten, r.states[i]));
       r.states[i + 1] == step.state && r.effects[i] == step.effects
  }

  /** `r` records the loop running over the frames `inputs`. */
  predicate IsRun(r: Recording, inputs: seq<Door.FrameInput>, distance: (Encoding, Encoding) -> real, asWritten: bool) {
    && |r.states| == |inputs| + 1
    && |r.effects| == |inputs|
    && forall i :: 0 <= i < |inputs| ==> Follows(r, inputs, distance, asWritten, i)
  }

  /** The run of the loop from `s` over `inputs`. */
  function Run(s: Door.State, inputs: seq<Door.FrameInput>, distance: (Encoding, Encoding) -> real, asWritten: bool): (r: Recording)
    ensures IsRun(r, inputs, distance, asWritten)
    ensures r.states[0] == s
    decreases |inputs|
  {
    if inputs == [] then Recording([s], [])
    else
      var step := Door.Frame(s, inputs[0], distance, Door.Judges(asWritten, s));
      var rest := Run(step.state, inputs[1..], distance, asWritten);
      var r := Recording([s] + rest.states, [step.effects] + rest.effects);
      assert Follows(r, inputs, distance, asWritten, 0);
      FollowsShift(rest, r, inputs, distance, asWritten);
      r
  }

  /** Prefixing a run over `inputs[1..]` by one state and one effect list keeps every later frame a step. */
  lemma {:induction false} FollowsShift(rest: Recording, r: Recording, inputs: seq<Door.FrameInput>, distance: (Encoding, Encoding) -> real, asWritten: bool)
    requires |inputs| > 0 && IsRun(rest, inputs[1..], distance, asWritten)
    requires |r.states| == |rest.states| + 1 && r.states[1..] == rest.states
    requires |r.effects| == |rest.effects| + 1 && r.effects[1..] == rest.effects
    ensures forall i :: 1 <= i < |inputs| ==> Follows(r, inputs, distance, asWritten, i)
  {
    forall i | 1 <= i < |inputs|
      ensures Follows(r, inputs, distance, asWritten, i)
    {
      var k := i - 1;
      assert Follows(rest, inputs[1..], distance, asWritten, k);
      assert r.states[i] == rest.states[k] && r.states[i + 1] == rest.states[k + 1];
      assert inputs[i] == inputs[1..][k] && r.effects[i] == rest.effects[k];
    }
  }

  /** The clock handed to the loop never runs backwards. */
  predicate Monotone(inputs: seq<Door.FrameInput>) {
    forall a, b :: 0 <= a <= b < |inputs| ==> inputs[a].now <= inputs[b].now
  }

  // Single frames of a run, each stated without mentioning the step function.

  lemma {:induction false} FrameCount(r: Recording, inputs: seq<Door.FrameInput>, distance: (Encoding, Encoding) -> real, asWritten: bool, k: nat)
    requires IsRun(r, inputs, distance, asWritten) && k < |inputs|
    ensures r.states[k + 1].frameCount == r.states[k].frameCount + 1
  {
    assert Follows(r, inputs, distance, asWritten, k);
    Door.StepFrameCount(r.states[k], inputs[k], distance, Door.Judges(asWritten, r.states[k]));
  }

  lemma {:induction false} FrameValid(r: Recording, inputs: seq<Door.FrameInput>, distance: (Encoding, Encoding) -> real, asWritten: bool, k: nat)
    requires IsRun(r, inputs, distance, asWritten) && k < |inputs|
    requires Door.Valid(r.states[k])
    ensures Door.Valid(r.states[k + 1])
    ensures r.states[k].store <= r.states[k + 1].store
  {
    assert Follows(r, inputs, distance, asWritten, k);
    Door.StepPreservesValid(r.states[k], inputs[k], distance, Door.Judges(asWritten, r.states[k]));
    Door.StepEnrollment(r.states[k], inputs[k], distance, Door.Judges(asWritten, r.states[k]));
  }

  lemma {:induction false} FrameCooldown(r: Recording, inputs: seq<Door.FrameInput>, distance: (Encoding, Encoding) -> real, asWritten: bool, k: nat, key: string)
    requires IsRun(r, inputs, distance, asWritten) && k < |inputs|
    ensures var before := Greeting.LastGreeted(r.states[k].greeted, key);
      var after := Greeting.LastGreeted(r.states[k + 1].greeted, key);
      && (after == before || (after == inputs[k].now && inputs[k].now - before > Config.GreetingCooldown))
      && (key in Door.Greetings(r.effects[k]) ==>
            after == inputs[k].now && Greeting.CooledDown(r.states[k].greeted, key, inputs[k].now))
      && (key == Config.UnknownName && Door.AskToHoldStill in r.effects[k] ==>
            after == inputs[k].now && Greeting.CooledDown(r.states[k].greeted, key, inputs[k].now))
  {
    assert Follows(r, inputs, distance, asWritten, k);
    Door.StepCooldown(r.states[k], inputs[k], distance, Door.Judges(asWritten, r.states[k]), key);
  }

  lemma {:induction false} FrameTimer(r: Recording, inputs: seq<Door.FrameInput>, distance: (Encoding, Encoding) -> real, asWritten: bool, k: nat)
    requires IsRun(r, inputs, distance, asWritten) && k < |inputs|
    ensures var t := r.states[k].tracker;
      var t' := r.states[k + 1].tracker;
      t'.timerStart.Some? && t'.timerStart != t.timerStart ==> t.timerStart.None? && t'.timerStart == Some(inputs[k].now)
    ensures Door.HasEnroll(r.effects[k]) ==>
      && r.states[k].tracker.timerStart.Some?
      && inputs[k].now - r.states[k].tracker.timerStart.value >= Config.RegistrationTimeReq
      && r.states[k + 1].tracker.timerStart.None?
  {
    assert Follows(r, inputs, distance, asWritten, k);
    Door.TimerStartsOnlyOnStableFrame(r.states[k], inputs[k], distance, Door.Judges(asWritten, r.states[k]));
    Door.StepEnrollment(r.states[k], inputs[k], distance, Door.Judges(asWritten, r.states[k]));
  }

  lemma {:induction false} FrameTracker(r: Recording, inputs: seq<Door.FrameInput>, distance: (Encoding, Encoding) -> real, asWritten: bool, k: nat)
    requires IsRun(r, inputs, distance, asWritten) && k < |inputs|
    ensures Door.Perceive(r.states[k], inputs[k], distance).unknownLoc.None? ==>
      r.states[k + 1].tracker == Stability.Miss(r.states[k].tracker)
    ensures Door.Perceive(r.states[k], inputs[k], distance).unknownLoc.Some? &&
            !Door.Fires(r.states[k], inputs[k], distance, Door.Judges(asWritten, r.states[k])) && r.states[k].tracker.timerStart.Some? ==>
      r.states[k + 1].tracker.timerStart == r.states[k].tracker.timerStart
  {
    assert Follows(r, inputs, distance, asWritten, k);
    Door.StepTrackerUpdate(r.states[k], inputs[k], distance, Door.Judges(asWritten, r.states[k]));
    Door.StepTracker(r.states[k], inputs[k], distance, Door.Judges(asWritten, r.states[k]));
  }

  // Properties of whole runs.

  /** Frame `i` of a run is frame number `frameCount + i` of the session. */
  lemma {:induction false} RunFrameCount(r: Recording, inputs: seq<Door.FrameInput>, distance: (Encoding, Encoding) -> real, asWritten: bool, i: nat)
    requires IsRun(r, inputs, distance, asWritten)
    requires i <= |inputs|
    ensures r.states[i].frameCount == r.states[0].frameCount + i
  {
    if i > 0 {
      var k := i - 1;
      RunFrameCount(r, inputs, distance, asWritten, k);
      FrameCount(r, inputs, distance, asWritten, k);
      assert k + 1 == i;
    }
  }

  /** So frame `i` of a run is sampled exactly when `frameCount + i` is a multiple of N. */
  lemma {:induction false} RunSampled(r: Recording, inputs: seq<Door.FrameInput>, distance: (Encoding, Encoding) -> real, asWritten: bool, i: nat)
    requires IsRun(r, inputs, distance, asWritten)
    requires i <= |inputs|
    ensures Door.Sampled(r.states[i]) <==> (r.states[0].frameCount + i) % Config.ProcessEveryNFrames == 0
  {
    RunFrameCount(r, inputs, distance, asWritten, i);
  }

  /** Every state of a run from a valid state is valid. */
  lemma {:induction false} RunValid(r: Recording, inputs: seq<Door.FrameInput>, distance: (Encoding, Encoding) -> real, asWritten: bool, i: nat)
    requires IsRun(r, inputs, distance, asWritten)
    requires Door.Valid(r.states[0])
    requires i <= |inputs|
    ensures Door.Valid(r.states[i])
  {
    if i > 0 {
      var k := i - 1;
      RunValid(r, inputs, distance, asWritten, k);
      FrameValid(r, inputs, distance, asWritten, k);
      assert k + 1 == i;
    }
  }

  /** The identity store only grows: every earlier store is a prefix of every later one. */
  lemma {:induction false} StoreOnlyGrows(r: Recording, inputs: seq<Door.FrameInput>, distance: (Encoding, Encoding) -> real, asWritten: bool, i: nat, j: nat)
    requires IsRun(r, inputs, distance, asWritten)
    requires Door.Valid(r.states[0])
    requires i <= j <= |inputs|
    ensures r.states[i].store <= r.states[j].store
    decreases j
  {
    if i < j {
      var k := j - 1;
      StoreOnlyGrows(r, inputs, distance, asWritten, i, k);
      StoreStep(r, inputs, distance, asWritten, k);
      assert k + 1 == j;
      PrefixTransitive(r.states[i].store, r.states[k].store, r.states[j].store);
    }
  }

  lemma {:induction false} StoreStep(r: Recording, inputs: seq<Door.FrameInput>, distance: (Encoding, Encoding) -> real, asWritten: bool, k: nat)
    requires IsRun(r, inputs, distance, asWritten)
    requires Door.Valid(r.states[0])
    requires k < |inputs|
    ensures r.states[k].store <= r.states[k + 1].store
  {
    RunValid(r, inputs, distance, asWritten, k);
    FrameValid(r, inputs, distance, asWritten, k);
  }

  lemma {:induction false} PrefixTransitive<T>(a: seq<T>, b: seq<T>, c: seq<T>)
    requires a <= b && b <= c
    ensures a <= c
  {
  }

  /**
   * Along a run, the stamp of any key either stays put or moves forward by
   * more than the cooldown.
   */
  lemma {:induction false} StampsAdvanceByCooldown(r: Recording, inputs: seq<Door.FrameInput>, distance: (Encoding, Encoding) -> real, asWritten: bool, key: string, i: nat, j: nat)
    requires IsRun(r, inputs, distance, asWritten)
    requires i <= j <= |inputs|
    ensures var a := Greeting.LastGreeted(r.states[i].greeted, key);
      var b := Greeting.LastGreeted(r.states[j].greeted, key);
      b == a || b - a > Config.GreetingCooldown
    decreases j
  {
    if i < j {
      var k := j - 1;
      StampsAdvanceByCooldown(r, inputs, distance, asWritten, key, i, k);
      FrameCooldown(r, inputs, distance, asWritten, k, key);
      assert k + 1 == j;
    }
  }

  /** Two greetings of the same known name in a run are more than the cooldown apart in time. */
  lemma {:induction false} GreetingsSpaced(r: Recording, inputs: seq<Door.FrameInput>, distance: (Encoding, Encoding) -> real, asWritten: bool, name: string, i: nat, j: nat)
    requires IsRun(r, inputs, distance, asWritten)
    requires i < j < |inputs|
    requires name in Door.Greetings(r.effects[i])
    requires name in Door.Greetings(r.effects[j])
    ensures inputs[j].now - inputs[i].now > Config.GreetingCooldown
  {
    FrameCooldown(r, inputs, distance, asWritten, i, name);
    FrameCooldown(r, inputs, distance, asWritten, j, name);
    StampsAdvanceByCooldown(r, inputs, distance, asWritten, name, i + 1, j);
  }

  /** Two unknown-face greetings in a run are more than the cooldown apart in time. */
  lemma {:induction false} UnknownGreetingsSpaced(r: Recording, inputs: seq<Door.FrameInput>, distance: (Encoding, Encoding) -> real, asWritten: bool, i: nat, j: nat)
    requires IsRun(r, inputs, distance, asWritten)
    requires i < j < |inputs|
    requires Door.AskToHoldStill in r.effects[i]
    requires Door.AskToHoldStill in r.effects[j]
    ensures inputs[j].now - inputs[i].now > Config.GreetingCooldown
  {
    FrameCooldown(r, inputs, distance, asWritten, i, Config.UnknownName);
    FrameCooldown(r, inputs, distance, asWritten, j, Config.UnknownName);
    StampsAdvanceByCooldown(r, inputs, distance, asWritten, Config.UnknownName, i + 1, j);
  }

  /** A running dwell timer was started, at its own value, by some frame since the timer was last clear. */
  lemma {:induction false} TimerOrigin(r: Recording, inputs: seq<Door.FrameInput>, distance: (Encoding, Encoding) -> real, asWritten: bool, m: nat, j: nat)
    requires IsRun(r, inputs, distance, asWritten)
    requires m <= j <= |inputs|
    requires r.states[m].tracker.timerStart.None?
    requires r.states[j].tracker.timerStart.Some?
    ensures exists k :: m <= k < j && inputs[k].now == r.states[j].tracker.timerStart.value
    decreases j
  {
    var k := j - 1;
    FrameTimer(r, inputs, distance, asWritten, k);
    assert k + 1 == j;
    if r.states[k].tracker.timerStart == r.states[j].tracker.timerStart {
      TimerOrigin(r, inputs, distance, asWritten, m, k);
    }
  }

  /**
   * With a clock that never runs backwards, two enrollments of a run are at
   * least the registration time apart.
   */
  lemma {:induction false} EnrollmentsSpaced(r: Recording, inputs: seq<Door.FrameInput>, distance: (Encoding, Encoding) -> real, asWritten: bool, i: nat, j: nat)
    requires IsRun(r, inputs, distance, asWritten)
    requires Monotone(inputs)
    requires i < j < |inputs|
    requires Door.HasEnroll(r.effects[i])
    requires Door.HasEnroll(r.effects[j])
    ensures inputs[j].now - inputs[i].now >= Config.RegistrationTimeReq
  {
    FrameTimer(r, inputs, distance, asWritten, i);
    FrameTimer(r, inputs, distance, asWritten, j);
    TimerOrigin(r, inputs, distance, asWritten, i + 1, j);
    var k :| i + 1 <= k < j && inputs[k].now == r.states[j].tracker.timerStart.value;
    assert inputs[i].now <= inputs[k].now;
  }

  /**
   * Frames without a candidate add one each to the missing counter, so more
   * than the tolerance of them in a row forget the centre and the timer.
   */
  lemma {:induction false} AbsenceCounts(r: Recording, inputs: seq<Door.FrameInput>, distance: (Encoding, Encoding) -> real, asWritten: bool, i: nat, n: nat)
    requires IsRun(r, inputs, distance, asWritten)
    requires i + n <= |inputs|
    requires forall k :: i <= k < i + n ==> Door.Perceive(r.states[k], inputs[k], distance).unknownLoc.None?
    ensures r.states[i + n].tracker.missing == r.states[i].tracker.missing + n
    ensures n > Config.MissingFaceTolerance ==>
      r.states[i + n].tracker.lastCenter.None? && r.states[i + n].tracker.timerStart.None?
    decreases n
  {
    if n > 0 {
      var k := i + n - 1;
      AbsenceCounts(r, inputs, distance, asWritten, i, n - 1);
      FrameTracker(r, inputs, distance, asWritten, k);
      assert k + 1 == i + n;
    }
  }

  /**
   * Jitter alone never resets the dwell timer: while a candidate is present
   * on every frame and no enrollment fires, a running timer keeps its start.
   */
  lemma {:induction false} PresenceKeepsTimer(r: Recording, inputs: seq<Door.FrameInput>, distance: (Encoding, Encoding) -> real, asWritten: bool, i: nat, n: nat)
    requires IsRun(r, inputs, distance, asWritten)
    requires i + n <= |inputs|
    requires r.states[i].tracker.timerStart.Some?
    requires forall k :: i <= k < i + n ==>
      Door.Perceive(r.states[k], inputs[k], distance).unknownLoc.Some? && !Door.Fires(r.states[k], inputs[k], distance, Door.Judges(asWritten, r.states[k]))
    ensures r.states[i + n].tracker.timerStart == r.states[i].tracker.timerStart
    decreases n
  {
    if n > 0 {
      var k := i + n - 1;
      PresenceKeepsTimer(r, inputs, distance, asWritten, i, n - 1);
      FrameTracker(r, inputs, distance, asWritten, k);
      assert k + 1 == i + n;
    }
  }

  /**
   * With stability judged on sampled frames only, a face whose every sampled
   * sighting lies at least the movement threshold from the remembered centre
   * (or comes after a reset, with no centre remembered) is never enrolled, and
   * never starts a dwell timer that was not running when the run began.
   */
  lemma {:induction false} JumpsNeverEnroll(r: Recording, inputs: seq<Door.FrameInput>, distance: (Encoding, Encoding) -> real, k: nat)
    requires IsRun(r, inputs, distance, false)
    requires forall j :: 0 <= j < |inputs| && Door.Sampled(r.states[j]) ==>
      var p := Door.Perceive(r.states[j], inputs[j], distance);
      p.unknownLoc.Some? ==> !Stability.Stable(r.states[j].tracker, Center(p.unknownLoc.value))
    requires k < |inputs|
    ensures !Door.HasEnroll(r.effects[k])
    ensures r.states[0].tracker.timerStart.None? ==> r.states[k + 1].tracker.timerStart.None?
    decreases k
  {
    if k > 0 {
      JumpsNeverEnroll(r, inputs, distance, k - 1);
    }
    assert Follows(r, inputs, distance, false, k);
    Door.StepEnrollment(r.states[k], inputs[k], distance, Door.Judges(false, r.states[k]));
    Door.TimerStartsOnlyOnStableFrame(r.states[k], inputs[k], distance, Door.Judges(false, r.states[k]));
  }

}
