/**
 * The stability tracker that decides when an unknown face is enrolled
 * (main.py, lines 203-255): the last centre of the candidate, the start of
 * the dwell timer, and the number of consecutive frames without a candidate.
 */
module Stability {

  import opened Options
  import opened Faces
  import Config

  /** `last_unknown_center`, `unknown_timer_start` and `missing_face_counter`. */
  datatype Tracker = Tracker(lastCenter: Option<Point>, timerStart: Option<real>, missing: nat)

  /** The tracker as the constructor leaves it. */
  const Idle: Tracker := Tracker(None, None, 0)

  /**
   * A candidate centred at `c` is stable when a previous centre exists and
   * lies strictly closer than the movement threshold.
   */
  predicate Stable(t: Tracker, c: Point)
    ensures Stable(t, c) ==> t.lastCenter.Some?
    ensures t.lastCenter == Some(c) ==> Stable(t, c)
  {
    t.lastCenter.Some? &&
    DistSq(c, t.lastCenter.value) < Config.MovementThreshold * Config.MovementThreshold
  }

  /**
   * The tracker invariant: a running timer implies a remembered centre, and
   * once the missing counter is past the tolerance both have been cleared.
   */
  predicate Valid(t: Tracker) {
    && (t.timerStart.Some? ==> t.lastCenter.Some?)
    && (t.missing > Config.MissingFaceTolerance ==> t.lastCenter.None? && t.timerStart.None?)
  }

  /** The tracker after a frame with a candidate, and whether that frame enrolls it. */
  datatype Observation = Observation(tracker: Tracker, enroll: bool)

  /** A frame whose enrollment candidate is centred at `c`, seen at time `now`. */
  function Observe(t: Tracker, c: Point, now: real): (r: Observation)
    ensures r.tracker.missing == 0
    ensures r.tracker.lastCenter == Some(c)
    ensures !Stable(t, c) ==> r.tracker.timerStart == t.timerStart && !r.enroll
    ensures r.enroll <==>
      Stable(t, c) && t.timerStart.Some? && now - t.timerStart.value >= Config.RegistrationTimeReq
    ensures r.enroll ==> r.tracker.timerStart.None?
    ensures Stable(t, c) && !r.enroll && t.timerStart.Some? ==> r.tracker.timerStart == t.timerStart
    ensures Stable(t, c) && t.timerStart.None? ==> r.tracker.timerStart == Some(now)
    ensures Valid(r.tracker)
  {
    var t' := t.(lastCenter := Some(c), missing := 0);
    if Stable(t, c) then
      var start := if t.timerStart.None? then now else t.timerStart.value;
      if now - start >= Config.RegistrationTimeReq then
        Observation(t'.(timerStart := None), true)
      else
        Observation(t'.(timerStart := Some(start)), false)
    else
      Observation(t', false)
  }

  /**
   * A frame whose candidate is centred at `c`, judged only when the frame is
   * sampled, that is, when detection produced the sighting on this frame. A
   * sampled sighting is judged as `Observe` judges it. A carried sighting reuses the previous
   * sampled frame's box. It refreshes the counter and the centre, but it is no
   * new evidence that the face held still, so it neither starts the timer nor
   * enrolls.
   */
  function See(t: Tracker, c: Point, now: real, sampled: bool): (r: Observation)
    ensures sampled ==> r == Observe(t, c, now)
    ensures r.tracker.missing == 0 && r.tracker.lastCenter == Some(c)
    ensures !sampled ==> r.tracker.timerStart == t.timerStart && !r.enroll
    ensures r.enroll ==> sampled && Stable(t, c)
    ensures Valid(r.tracker)
  {
    if sampled then Observe(t, c, now) else Observation(t.(lastCenter := Some(c), missing := 0), false)
  }

  /**
   * The squared comparison agrees with the square-root one of `main.py`: for
   * `d` the distance between the centres, the candidate is stable exactly when
   * `d` is below the movement threshold.
   */
  lemma {:induction false} StableMatchesSqrt(t: Tracker, c: Point, d: real)
    requires t.lastCenter.Some?
    requires d >= 0.0 && d * d == DistSq(c, t.lastCenter.value)
    ensures Stable(t, c) <==> d < Config.MovementThreshold
  {
    var m := Config.MovementThreshold;
    var q := DistSq(c, t.lastCenter.value);
    assert m * m == 3600.0;
    assert q == d * d;
    if d < m {
      assert d * d <= d * 60.0;
      assert d * 60.0 < 3600.0;
      assert q < m * m;
    } else {
      assert d * d >= d * 60.0;
      assert d * 60.0 >= 3600.0;
      assert q >= m * m;
    }
    assert Stable(t, c) <==> q < m * m;
  }

  /**
   * A frame without a candidate: the counter grows by one; centre and timer
   * are forgotten exactly when it passes the tolerance, and kept otherwise.
   */
  function Miss(t: Tracker): (r: Tracker)
    ensures r.missing == t.missing + 1
    ensures r.missing > Config.MissingFaceTolerance ==> r.lastCenter.None? && r.timerStart.None?
    ensures r.missing <= Config.MissingFaceTolerance ==>
      r.lastCenter == t.lastCenter && r.timerStart == t.timerStart
    ensures Valid(t) ==> Valid(r)
  {
    var t' := t.(missing := t.missing + 1);
    if t'.missing > Config.MissingFaceTolerance then t'.(timerStart := None, lastCenter := None)
    else t'
  }

  /** After a reset by the missing counter, the next sighting is never stable. */
  lemma {:induction false} FirstSightingAfterResetUnstable(t: Tracker, c: Point, now: real)
    requires Valid(t)
    requires t.missing > Config.MissingFaceTolerance
    ensures !Stable(t, c)
    ensures Observe(t, c, now).tracker.timerStart.None? && !Observe(t, c, now).enroll
  {
  }

}
