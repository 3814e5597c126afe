/**
 * One iteration of the `SmartDoorSystem.run` loop (main.py, lines 147-255) as
 * a pure step from the session state and the frame's inputs to the next state
 * and the effects the frame requests (speech and the enrollment save).
 * Capture, drawing, the quit key and audio playback are outside the step.
 */
module Door {

  import opened Options
  import opened Faces
  import Config
  import Classifier
  import Greeting
  import Stability
  import Crop
  import KnownFaces

  /** What a frame asks the outside world to do. */
  datatype Effect =
    /** Speak the welcome-back greeting for a known name; `companion` adds the note about an unregistered guest. */
    | Greet(name: string, companion: bool)
    /** Ask an unknown face to hold still. */
    | AskToHoldStill
    /** Save the crop of the current frame under `filename`, then thank the guest. */
    | Enroll(crop: Crop.Rect, filename: string)

  const WelcomeBack: string := "Merhaba tekrardan hoşgeldiniz efendim."
  const CompanionNote: string := " Yanınızdaki misafir için kayıt işlemi gerekiyor."
  const HoldStill: string := "Merhaba hoşgeldiniz. Yüzünüzü tanıtmak için lütfen sabit durun."
  const Thanks: string := "Teşekkürler. Yüzünüz başarıyla kaydedildi."

  /** The sentence handed to the speech system for an effect; a greeting mentions the guest exactly when it carries the companion note. */
  function Utterance(e: Effect): (r: string)
    ensures e.Greet? ==> WelcomeBack <= r
    ensures e.Greet? ==> (e.companion <==> KnownFaces.EndsWith(r, CompanionNote))
  {
    match e
    case Greet(_, companion) => if companion then WelcomeBack + CompanionNote else WelcomeBack
    case AskToHoldStill => HoldStill
    case Enroll(_, _) => Thanks
  }

  /**
   * What the loop learns from the outside world in one frame: the clock, the
   * frame size, the faces detection would report (consulted on sampled frames
   * only), and, for an enrollment, the timestamp text of the saved file and
   * the faces found in the saved crop when the directory is reloaded.
   */
  datatype FrameInput = FrameInput(
    now: real,
    height: nat,
    width: nat,
    detections: seq<Detection>,
    stamp: string,
    cropEncodings: seq<Encoding>)

  /** The session state: the face directory and store, the loop's locals, the tracker and the cooldown table. */
  datatype State = State(
    directory: seq<KnownFaces.DirEntry>,
    store: seq<Identity>,
    frameCount: nat,
    faceLocations: seq<Box>,
    faceNames: seq<string>,
    knowns: seq<string>,
    unknownLoc: Option<Box>,
    tracker: Stability.Tracker,
    greeted: Greeting.Table)

  /** The state the loop starts from, with the store loaded from `directory`. */
  function Init(directory: seq<KnownFaces.DirEntry>): (s: State)
    ensures Valid(s)
  {
    State(directory, KnownFaces.LoadKnownFaces(directory), 0, [], [], [], None, Stability.Idle, map[])
  }

  /** The session invariant: the store mirrors the directory, labels pair up with locations, the tracker is consistent. */
  predicate Valid(s: State) {
    && s.store == KnownFaces.LoadKnownFaces(s.directory)
    && |s.faceNames| == |s.faceLocations|
    && Stability.Valid(s.tracker)
  }

  /** Detection and classification run on this frame. */
  predicate Sampled(s: State) {
    s.frameCount % Config.ProcessEveryNFrames == 0
  }

  /**
   * Whether a frame judges the candidate's stability: every frame in the loop
   * as written, only sampled frames once corrected (see Findings in the README).
   */
  predicate Judges(asWritten: bool, s: State) {
    asWritten || Sampled(s)
  }

  /** The loop's per-frame view of the faces, fresh on a sampled frame and reused otherwise. */
  datatype Perception = Perception(
    faceLocations: seq<Box>,
    faceNames: seq<string>,
    knowns: seq<string>,
    unknownLoc: Option<Box>)

  function Perceive(s: State, inp: FrameInput, distance: (Encoding, Encoding) -> real): (r: Perception)
    ensures Sampled(s) ==> |r.faceNames| == |r.faceLocations| == |inp.detections|
    ensures Sampled(s) ==> (r.unknownLoc.None? <==> |r.knowns| == |inp.detections|)
    ensures !Sampled(s) ==> r.knowns == s.knowns && r.unknownLoc == s.unknownLoc
  {
    if Sampled(s) then
      var c := Classifier.Classify(s.store, inp.detections, distance);
      Perception(Boxes(inp.detections), c.names, c.knowns, Classifier.SelectCandidate(c.unmatched))
    else
      Perception(s.faceLocations, s.faceNames, s.knowns, s.unknownLoc)
  }

  /** One welcome-back greeting per greeted name, all with the same companion note. */
  function Hellos(names: seq<string>, companion: bool): (r: seq<Effect>)
    ensures |r| == |names|
    ensures forall i :: 0 <= i < |names| ==> r[i] == Greet(names[i], companion)
  {
    seq(|names|, i requires 0 <= i < |names| => Greet(names[i], companion))
  }

  /** What the frame says: the greetings of known names, then the unknown greeting if `GreetFrame` speaks it. */
  function Said(g: Greeting.FrameGreetings, companion: bool): (r: seq<Effect>)
    ensures forall e :: e in r ==> !e.Enroll?
  {
    Hellos(g.greeted, companion) + (if g.unknownSpoken then [AskToHoldStill] else [])
  }

  /** The tracker, candidate, directory and store after the frame's stability check, and the enrollment it requests. */
  datatype Progress = Progress(
    tracker: Stability.Tracker,
    unknownLoc: Option<Box>,
    directory: seq<KnownFaces.DirEntry>,
    store: seq<Identity>,
    enrolled: seq<Effect>)

  /**
   * The stability check of a frame: without a candidate the tracker counts a
   * miss; with one it sees the candidate's centre, judging stability only when
   * `sampled`, and when that enrolls the guest file is appended to the
   * directory, the store is reloaded from it and the candidate is consumed.
   */
  function Advance(s: State, loc: Option<Box>, inp: FrameInput, sampled: bool): (r: Progress)
    ensures forall e :: e in r.enrolled ==> e.Enroll?
    ensures r.enrolled == [] ==> r.directory == s.directory && r.store == s.store && r.unknownLoc == loc
    ensures r.enrolled != [] ==> |r.enrolled| == 1 && r.unknownLoc.None? && r.tracker.timerStart.None?
    ensures Stability.Valid(s.tracker) ==> Stability.Valid(r.tracker)
  {
    match loc
    case None =>
      Progress(Stability.Miss(s.tracker), None, s.directory, s.store, [])
    case Some(box) =>
      var o := Stability.See(s.tracker, Center(box), inp.now, sampled);
      if o.enroll then
        var filename := KnownFaces.GuestFileName(inp.stamp);
        var dir := s.directory + [KnownFaces.DirEntry(filename, inp.cropEncodings)];
        Progress(o.tracker, None, dir, KnownFaces.LoadKnownFaces(dir),
                 [Enroll(Crop.CropRect(box, inp.height, inp.width), filename)])
      else
        Progress(o.tracker, loc, s.directory, s.store, [])
  }

  datatype StepResult = StepResult(state: State, effects: seq<Effect>)

  /**
   * One frame of the loop, with the candidate's stability judged on this
   * frame only when `judged`. Every frame leaves the remembered centre on the
   * candidate it keeps.
   */
  function Frame(s: State, inp: FrameInput, distance: (Encoding, Encoding) -> real, judged: bool): (r: StepResult)
    ensures Tracked(r.state)
  {
    var p := Perceive(s, inp, distance);
    var g := Greeting.GreetFrame(s.greeted, p.knowns, p.unknownLoc.Some?, inp.now);
    var a := Advance(s, p.unknownLoc, inp, judged);
    StepResult(
      State(a.directory, a.store, s.frameCount + 1, p.faceLocations, p.faceNames, p.knowns,
            a.unknownLoc, a.tracker, g.table),
      Said(g, p.unknownLoc.Some?) + a.enrolled)
  }

  /**
   * One frame as `main.py` runs it: stability is judged on every frame with a
   * candidate, including the frames that reuse the last sampled box.
   */
  function StepAsWritten(s: State, inp: FrameInput, distance: (Encoding, Encoding) -> real): (r: StepResult)
    ensures HasEnroll(r.effects) <==> Fires(s, inp, distance, true)
    ensures Tracked(s) && s.unknownLoc.Some? && !Sampled(s) && s.tracker.timerStart.None? ==>
      r.state.tracker.timerStart == Some(inp.now)
  {
    StepEnrollShape(s, inp, distance, true);
    if s.unknownLoc.Some? then
      var c := Center(s.unknownLoc.value);
      assert DistSq(c, c) == 0.0;
      Frame(s, inp, distance, true)
    else
      Frame(s, inp, distance, true)
  }

  /**
   * One frame of the loop, with stability judged only on sampled frames (see
   * Findings in the README). It differs from the loop as written only on
   * frames that reuse the last sampled box, and there only in the dwell timer
   * and enrollment: such a frame never starts the timer and never enrolls.
   */
  function Step(s: State, inp: FrameInput, distance: (Encoding, Encoding) -> real): (r: StepResult)
    ensures Sampled(s) ==> r == StepAsWritten(s, inp, distance)
    ensures !Sampled(s) ==> !HasEnroll(r.effects)
    ensures !Sampled(s) && s.unknownLoc.Some? ==> r.state.tracker.timerStart == s.tracker.timerStart
    ensures var w := StepAsWritten(s, inp, distance);
      && r.state.frameCount == w.state.frameCount
      && r.state.knowns == w.state.knowns
      && r.state.greeted == w.state.greeted
      && Greetings(r.effects) == Greetings(w.effects)
      && r.state.tracker.lastCenter == w.state.tracker.lastCenter
      && r.state.tracker.missing == w.state.tracker.missing
  {
    var p := Perceive(s, inp, distance);
    var g := Greeting.GreetFrame(s.greeted, p.knowns, p.unknownLoc.Some?, inp.now);
    SaidParts(g, p.unknownLoc.Some?, Advance(s, p.unknownLoc, inp, Sampled(s)).enrolled);
    SaidParts(g, p.unknownLoc.Some?, Advance(s, p.unknownLoc, inp, true).enrolled);
    StepEnrollShape(s, inp, distance, Sampled(s));
    Frame(s, inp, distance, Sampled(s))
  }

  /** The names greeted by a list of effects, in order. */
  function Greetings(effects: seq<Effect>): (r: seq<string>)
    ensures |r| <= |effects|
    decreases |effects|
  {
    if effects == [] then []
    else (if effects[0].Greet? then [effects[0].name] else []) + Greetings(effects[1..])
  }

  lemma {:induction false} GreetingsAppend(a: seq<Effect>, b: seq<Effect>)
    ensures Greetings(a + b) == Greetings(a) + Greetings(b)
    decreases |a|
  {
    if a == [] {
      assert a + b == b;
    } else {
      var ab := a + b;
      assert ab[0] == a[0];
      assert ab[1..] == a[1..] + b;
      GreetingsAppend(a[1..], b);
      assert Greetings(ab) == (if a[0].Greet? then [a[0].name] else []) + Greetings(a[1..] + b);
    }
  }

  /** An effect list holds an enrollment. */
  predicate HasEnroll(effects: seq<Effect>) {
    exists e :: e in effects && e.Enroll?
  }

  /**
   * The enrollment condition, stated on the state before the frame: the frame
   * judges stability, a candidate is present, it is stable, and the dwell
   * timer was already running for at least the registration time.
   */
  predicate Fires(s: State, inp: FrameInput, distance: (Encoding, Encoding) -> real, judged: bool) {
    var p := Perceive(s, inp, distance);
    && judged
    && p.unknownLoc.Some?
    && Stability.Stable(s.tracker, Center(p.unknownLoc.value))
    && s.tracker.timerStart.Some?
    && inp.now - s.tracker.timerStart.value >= Config.RegistrationTimeReq
  }

  /**
   * Followed by enrollments only, what a frame says greets exactly the names
   * `GreetFrame` greets, with the companion note exactly when a candidate is
   * present, and holds the unknown greeting exactly when `GreetFrame` speaks it.
   */
  lemma {:induction false} SaidParts(g: Greeting.FrameGreetings, companion: bool, tail: seq<Effect>)
    requires forall e :: e in tail ==> e.Enroll?
    ensures Greetings(Said(g, companion) + tail) == g.greeted
    ensures AskToHoldStill in Said(g, companion) + tail <==> g.unknownSpoken
    ensures forall e :: e in Said(g, companion) + tail && e.Greet? ==> e.companion == companion
  {
    SaidGreetings(g, companion, tail);
    SaidPrompt(g, companion, tail);
    SaidCompanion(g, companion, tail);
  }

  lemma {:induction false} SaidGreetings(g: Greeting.FrameGreetings, companion: bool, tail: seq<Effect>)
    requires forall e :: e in tail ==> e.Enroll?
    ensures Greetings(Said(g, companion) + tail) == g.greeted
  {
    var hello := Hellos(g.greeted, companion);
    var spoken: seq<Effect> := if g.unknownSpoken then [AskToHoldStill] else [];
    var rest := spoken + tail;
    assert Said(g, companion) + tail == hello + rest;
    HelloGreetings(g.greeted, companion);
    assert forall e :: e in rest ==> !e.Greet?;
    NoGreetings(rest);
    GreetingsAppend(hello, rest);
  }

  lemma {:induction false} SaidPrompt(g: Greeting.FrameGreetings, companion: bool, tail: seq<Effect>)
    requires forall e :: e in tail ==> e.Enroll?
    ensures AskToHoldStill in Said(g, companion) + tail <==> g.unknownSpoken
  {
    var hello := Hellos(g.greeted, companion);
    var spoken: seq<Effect> := if g.unknownSpoken then [AskToHoldStill] else [];
    var all := hello + (spoken + tail);
    assert Said(g, companion) + tail == all;
    assert AskToHoldStill !in hello;
    assert AskToHoldStill !in tail;
    assert AskToHoldStill in all <==> AskToHoldStill in spoken;
  }

  lemma {:induction false} SaidCompanion(g: Greeting.FrameGreetings, companion: bool, tail: seq<Effect>)
    requires forall e :: e in tail ==> e.Enroll?
    ensures forall e :: e in Said(g, companion) + tail && e.Greet? ==> e.companion == companion
  {
    var hello := Hellos(g.greeted, companion);
    var spoken: seq<Effect> := if g.unknownSpoken then [AskToHoldStill] else [];
    var all := hello + (spoken + tail);
    assert Said(g, companion) + tail == all;
    assert forall e :: e in all ==> e in hello || e in spoken || e in tail;
  }

  lemma {:induction false} NoGreetings(effects: seq<Effect>)
    requires forall e :: e in effects ==> !e.Greet?
    ensures Greetings(effects) == []
    decreases |effects|
  {
    if effects != [] {
      assert effects[0] in effects;
      assert forall e :: e in effects[1..] ==> e in effects;
      NoGreetings(effects[1..]);
    }
  }

  /**
   * The frame's greetings and cooldown table are those of `GreetFrame`: the
   * known greetings carry the companion note exactly when a candidate is
   * present, and the unknown greeting is among the effects exactly when
   * `GreetFrame` speaks it.
   */
  lemma {:induction false} StepGreetingParts(s: State, inp: FrameInput, distance: (Encoding, Encoding) -> real, judged: bool)
    ensures var r := Frame(s, inp, distance, judged);
      var p := Perceive(s, inp, distance);
      var g := Greeting.GreetFrame(s.greeted, p.knowns, p.unknownLoc.Some?, inp.now);
      && r.state.greeted == g.table
      && Greetings(r.effects) == g.greeted
      && (AskToHoldStill in r.effects <==> g.unknownSpoken)
      && (forall e :: e in r.effects && e.Greet? ==> e.companion == p.unknownLoc.Some?)
  {
    var p := Perceive(s, inp, distance);
    var g := Greeting.GreetFrame(s.greeted, p.knowns, p.unknownLoc.Some?, inp.now);
    SaidParts(g, p.unknownLoc.Some?, Advance(s, p.unknownLoc, inp, judged).enrolled);
  }

  /** The frame enrolls exactly when `Fires` holds, and the enrollment is its last effect. */
  lemma {:induction false} StepEnrollShape(s: State, inp: FrameInput, distance: (Encoding, Encoding) -> real, judged: bool)
    ensures var r := Frame(s, inp, distance, judged);
      var p := Perceive(s, inp, distance);
      && (HasEnroll(r.effects) <==> Fires(s, inp, distance, judged))
      && (Fires(s, inp, distance, judged) ==>
            r.effects[|r.effects| - 1] ==
            Enroll(Crop.CropRect(p.unknownLoc.value, inp.height, inp.width), KnownFaces.GuestFileName(inp.stamp)))
  {
    var r := Frame(s, inp, distance, judged);
    var p := Perceive(s, inp, distance);
    var g := Greeting.GreetFrame(s.greeted, p.knowns, p.unknownLoc.Some?, inp.now);
    var said := Said(g, p.unknownLoc.Some?);
    var a := Advance(s, p.unknownLoc, inp, judged);
    assert r.effects == said + a.enrolled;
    if Fires(s, inp, distance, judged) {
      assert a.enrolled[0] in r.effects;
    } else {
      assert a.enrolled == [];
      assert r.effects == said;
    }
  }

  lemma {:induction false} HelloGreetings(names: seq<string>, companion: bool)
    ensures Greetings(Hellos(names, companion)) == names
    decreases |names|
  {
    if names != [] {
      assert Hellos(names, companion)[1..] == Hellos(names[1..], companion);
      HelloGreetings(names[1..], companion);
    }
  }

  /**
   * Detection and classification are recomputed exactly on sampled frames;
   * on the other frames the previous frame's results are kept, except that an
   * enrollment consumes the candidate.
   */
  lemma {:induction false} StepSampling(s: State, inp: FrameInput, distance: (Encoding, Encoding) -> real, judged: bool)
    ensures var r := Frame(s, inp, distance, judged).state;
      var c := Classifier.Classify(s.store, inp.detections, distance);
      && r.frameCount == s.frameCount + 1
      && (Sampled(s) ==>
            r.faceLocations == Boxes(inp.detections) && r.faceNames == c.names && r.knowns == c.knowns &&
            r.unknownLoc == if Fires(s, inp, distance, judged) then None else Classifier.SelectCandidate(c.unmatched))
      && (!Sampled(s) ==>
            r.faceLocations == s.faceLocations && r.faceNames == s.faceNames && r.knowns == s.knowns &&
            r.unknownLoc == if Fires(s, inp, distance, judged) then None else s.unknownLoc)
  {
  }

  /**
   * An enrollment happens exactly when `Fires` holds; it clears the dwell
   * timer and the candidate, saves the guest file, and grows the store by the
   * guest's identity if a face is found in the crop. Otherwise the directory
   * and the store are left alone.
   */
  lemma {:induction false} StepEnrollment(s: State, inp: FrameInput, distance: (Encoding, Encoding) -> real, judged: bool)
    ensures var r := Frame(s, inp, distance, judged);
      && (HasEnroll(r.effects) <==> Fires(s, inp, distance, judged))
      && (Fires(s, inp, distance, judged) ==>
            && r.state.tracker.timerStart.None?
            && r.state.unknownLoc.None?
            && r.state.directory == s.directory + [KnownFaces.DirEntry(KnownFaces.GuestFileName(inp.stamp), inp.cropEncodings)])
      && (Valid(s) && Fires(s, inp, distance, judged) ==>
            r.state.store == s.store +
              (if inp.cropEncodings == [] then [] else [Identity(Config.GuestName, inp.cropEncodings[0])]))
      && (!Fires(s, inp, distance, judged) ==> r.state.directory == s.directory && r.state.store == s.store)
  {
    StepEnrollShape(s, inp, distance, judged);
    KnownFaces.ReloadAfterSave(s.directory, inp.stamp, inp.cropEncodings);
  }

  /**
   * The tracker on a frame with a candidate: the counter is reset, the centre
   * overwritten, an unstable frame leaves the timer alone, and a stable frame
   * that does not enroll starts the timer if it was not running and keeps it
   * otherwise. On a frame without one: the counter grows by one and centre and
   * timer are cleared exactly when it passes the tolerance.
   */
  lemma {:induction false} StepTracker(s: State, inp: FrameInput, distance: (Encoding, Encoding) -> real, judged: bool)
    ensures var t := s.tracker;
      var t' := Frame(s, inp, distance, judged).state.tracker;
      var p := Perceive(s, inp, distance);
      && (p.unknownLoc.Some? ==>
            && t'.missing == 0
            && t'.lastCenter == Some(Center(p.unknownLoc.value))
            && (!(judged && Stability.Stable(t, Center(p.unknownLoc.value))) ==> t'.timerStart == t.timerStart)
            && (judged && Stability.Stable(t, Center(p.unknownLoc.value)) && !Fires(s, inp, distance, judged) ==>
                  t'.timerStart == if t.timerStart.None? then Some(inp.now) else t.timerStart))
      && (p.unknownLoc.None? ==>
            && t'.missing == t.missing + 1
            && (t'.missing > Config.MissingFaceTolerance ==> t'.lastCenter.None? && t'.timerStart.None?)
            && (t'.missing <= Config.MissingFaceTolerance ==>
                  t'.lastCenter == t.lastCenter && t'.timerStart == t.timerStart))
  {
  }

  /** The dwell timer only ever starts at `now`, on a stable frame, when it was not already running. */
  lemma {:induction false} TimerStartsOnlyOnStableFrame(s: State, inp: FrameInput, distance: (Encoding, Encoding) -> real, judged: bool)
    ensures var t := s.tracker;
      var t' := Frame(s, inp, distance, judged).state.tracker;
      var p := Perceive(s, inp, distance);
      t'.timerStart.Some? && t'.timerStart != t.timerStart ==>
        && t.timerStart.None?
        && t'.timerStart == Some(inp.now)
        && judged
        && p.unknownLoc.Some?
        && Stability.Stable(t, Center(p.unknownLoc.value))
  {
  }

  /**
   * A known name is greeted at most once per frame: exactly once when it is
   * among this frame's known faces and its cooldown has passed, and every
   * greeting carries the companion note exactly when a candidate is present.
   */
  lemma {:induction false} StepGreetsKnown(s: State, inp: FrameInput, distance: (Encoding, Encoding) -> real, judged: bool, name: string)
    ensures var r := Frame(s, inp, distance, judged);
      var p := Perceive(s, inp, distance);
      && multiset(Greetings(r.effects))[name] ==
           (if name in p.knowns && Greeting.CooledDown(s.greeted, name, inp.now) then 1 else 0)
      && (forall e :: e in r.effects && e.Greet? ==> e.companion == p.unknownLoc.Some?)
  {
    var p := Perceive(s, inp, distance);
    StepGreetingParts(s, inp, distance, judged);
    Greeting.GreetKnownsOnce(s.greeted, p.knowns, inp.now, name);
  }

  /**
   * The unknown greeting is spoken exactly when a candidate is present, no
   * known face is, and the unknown key has cooled down; with a known face
   * present it is suppressed, but its stamp is still renewed.
   */
  lemma {:induction false} StepGreetsUnknown(s: State, inp: FrameInput, distance: (Encoding, Encoding) -> real, judged: bool)
    ensures var r := Frame(s, inp, distance, judged);
      var p := Perceive(s, inp, distance);
      && (AskToHoldStill in r.effects <==>
            p.unknownLoc.Some? && p.knowns == [] && Greeting.CooledDown(s.greeted, Config.UnknownName, inp.now))
      && (p.unknownLoc.Some? && p.knowns != [] &&
          Greeting.CooledDown(s.greeted, Config.UnknownName, inp.now) ==>
            AskToHoldStill !in r.effects &&
            Greeting.LastGreeted(r.state.greeted, Config.UnknownName) == inp.now)
  {
    var p := Perceive(s, inp, distance);
    StepGreetingParts(s, inp, distance, judged);
    Greeting.GreetFrameUnknown(s.greeted, p.knowns, p.unknownLoc.Some?, inp.now);
  }

  /**
   * The cooldown table per key: a stamp either stays or becomes `now`, and
   * only after more than the cooldown since the previous stamp; every greeting
   * of the frame stamps its key with `now`. Keys are never removed.
   */
  lemma {:induction false} StepCooldown(s: State, inp: FrameInput, distance: (Encoding, Encoding) -> real, judged: bool, key: string)
    ensures var r := Frame(s, inp, distance, judged);
      var before := Greeting.LastGreeted(s.greeted, key);
      var after := Greeting.LastGreeted(r.state.greeted, key);
      && (after == before || (after == inp.now && inp.now - before > Config.GreetingCooldown))
      && (key in Greetings(r.effects) ==> after == inp.now && Greeting.CooledDown(s.greeted, key, inp.now))
      && (key == Config.UnknownName && AskToHoldStill in r.effects ==>
            after == inp.now && Greeting.CooledDown(s.greeted, key, inp.now))
      && s.greeted.Keys <= r.state.greeted.Keys
  {
    var p := Perceive(s, inp, distance);
    StepGreetingParts(s, inp, distance, judged);
    Greeting.GreetFrameStamps(s.greeted, p.knowns, p.unknownLoc.Some?, inp.now, key);
  }

  /** Every frame keeps the session invariant. */
  lemma {:induction false} StepPreservesValid(s: State, inp: FrameInput, distance: (Encoding, Encoding) -> real, judged: bool)
    requires Valid(s)
    ensures Valid(Frame(s, inp, distance, judged).state)
  {
  }

  /** The frame counter advances by one on every frame. */
  lemma {:induction false} StepFrameCount(s: State, inp: FrameInput, distance: (Encoding, Encoding) -> real, judged: bool)
    ensures Frame(s, inp, distance, judged).state.frameCount == s.frameCount + 1
  {
  }

  /** The tracker update of a frame: `Miss` without a candidate, `See` with one. */
  lemma {:induction false} StepTrackerUpdate(s: State, inp: FrameInput, distance: (Encoding, Encoding) -> real, judged: bool)
    ensures var p := Perceive(s, inp, distance);
      Frame(s, inp, distance, judged).state.tracker ==
        if p.unknownLoc.None? then Stability.Miss(s.tracker)
        else Stability.See(s.tracker, Center(p.unknownLoc.value), inp.now, judged).tracker
  {
  }

  // Stability on frames that reuse the last sampled box.

  /** The remembered centre is the centre of the current candidate, whenever there is one. */
  predicate Tracked(s: State) {
    s.unknownLoc.Some? ==> s.tracker.lastCenter == Some(Center(s.unknownLoc.value))
  }

  /**
   * As written, a frame that reuses the last sampled box compares that box's
   * centre with itself: it is always stable, so it starts an absent timer and
   * enrolls once the timer is due, however far the face moved between sampled
   * frames.
   */
  lemma {:induction false} ReusedFrameStable(s: State, inp: FrameInput, distance: (Encoding, Encoding) -> real)
    requires Tracked(s) && !Sampled(s) && s.unknownLoc.Some?
    ensures Stability.Stable(s.tracker, Center(Perceive(s, inp, distance).unknownLoc.value))
    ensures s.tracker.timerStart.None? ==> StepAsWritten(s, inp, distance).state.tracker.timerStart == Some(inp.now)
    ensures s.tracker.timerStart.Some? && inp.now - s.tracker.timerStart.value >= Config.RegistrationTimeReq ==>
      HasEnroll(StepAsWritten(s, inp, distance).effects)
  {
    var p := Perceive(s, inp, distance);
    var c := Center(s.unknownLoc.value);
    assert DistSq(c, c) == 0.0;
    var r := StepAsWritten(s, inp, distance);
    var a := Advance(s, p.unknownLoc, inp, true);
    assert r.effects == Said(Greeting.GreetFrame(s.greeted, p.knowns, true, inp.now), true) + a.enrolled;
    if a.enrolled != [] {
      assert a.enrolled[0] in r.effects;
    }
  }

  /** No face is known, so every detection is unmatched. */
  function NoMatch(known: Encoding, enc: Encoding): real {
    1.0
  }

  const BoxA: Box := Box(0, 10, 10, 0)
  /** 200 pixels to the right of `BoxA`. */
  const BoxB: Box := Box(0, 210, 10, 200)

  /** A frame at time `now` whose detection, if it is sampled, is the one box `b`. */
  function Sight(now: real, b: Box): FrameInput {
    FrameInput(now, 720, 1280, [Detection(b, [])], "20240101_000000", [])
  }

  /** The first three frames of the guest's run, as written: the reused frame at time 1 starts the timer. */
  lemma {:induction false} GuestSettlesAsWritten(directory: seq<KnownFaces.DirEntry>)
    ensures var s0 := Init(directory);
      var r0 := StepAsWritten(s0, Sight(0.0, BoxA), NoMatch);
      var r1 := StepAsWritten(r0.state, Sight(1.0, BoxA), NoMatch);
      var r2 := StepAsWritten(r1.state, Sight(2.0, BoxA), NoMatch);
      && Sampled(s0) && !Stability.Stable(s0.tracker, Center(BoxA))
      && r2.state.frameCount == 3 && r2.state.unknownLoc == Some(BoxA)
      && r2.state.tracker == Stability.Tracker(Some(Center(BoxA)), Some(1.0), 0)
  {
    var s0 := Init(directory);
    var r0 := StepAsWritten(s0, Sight(0.0, BoxA), NoMatch);
    assert r0.state.unknownLoc == Some(BoxA);
    assert r0.state.tracker == Stability.Tracker(Some(Center(BoxA)), None, 0);
    var r1 := StepAsWritten(r0.state, Sight(1.0, BoxA), NoMatch);
    assert r1.state.tracker == Stability.Tracker(Some(Center(BoxA)), Some(1.0), 0);
  }

  /** From there, as written: the jump to `BoxB` is unstable, but the running timer survives it. */
  lemma {:induction false} GuestJumpsAsWritten(s: State)
    requires s.frameCount == 3 && s.unknownLoc == Some(BoxA)
    requires s.tracker == Stability.Tracker(Some(Center(BoxA)), Some(1.0), 0)
    ensures var r3 := StepAsWritten(s, Sight(3.0, BoxB), NoMatch);
      && Sampled(s) && !Stability.Stable(s.tracker, Center(BoxB))
      && r3.state.frameCount == 4 && r3.state.unknownLoc == Some(BoxB)
      && r3.state.tracker == Stability.Tracker(Some(Center(BoxB)), Some(1.0), 0)
  {
    var r3 := StepAsWritten(s, Sight(3.0, BoxB), NoMatch);
    assert r3.state.unknownLoc == Some(BoxB);
  }

  /**
   * As written, whatever faces are known: a guest seen at `BoxA`, then 200 pixels away at `BoxB` on the
   * next sampled frame, is unstable on both sampled frames, yet is enrolled on
   * the reused frame at time 16, because the timer was started by the reused
   * frame at time 1.
   */
  lemma {:induction false} JumpingGuestEnrolledAsWritten(directory: seq<KnownFaces.DirEntry>)
    ensures var s0 := Init(directory);
      var r0 := StepAsWritten(s0, Sight(0.0, BoxA), NoMatch);
      var r1 := StepAsWritten(r0.state, Sight(1.0, BoxA), NoMatch);
      var r2 := StepAsWritten(r1.state, Sight(2.0, BoxA), NoMatch);
      var r3 := StepAsWritten(r2.state, Sight(3.0, BoxB), NoMatch);
      var r4 := StepAsWritten(r3.state, Sight(16.0, BoxB), NoMatch);
      && Sampled(s0) && !Stability.Stable(s0.tracker, Center(BoxA))
      && Sampled(r2.state) && !Stability.Stable(r2.state.tracker, Center(BoxB))
      && HasEnroll(r4.effects)
  {
    GuestSettlesAsWritten(directory);
    var s0 := Init(directory);
    var r0 := StepAsWritten(s0, Sight(0.0, BoxA), NoMatch);
    var r1 := StepAsWritten(r0.state, Sight(1.0, BoxA), NoMatch);
    var r2 := StepAsWritten(r1.state, Sight(2.0, BoxA), NoMatch);
    GuestJumpsAsWritten(r2.state);
    var r3 := StepAsWritten(r2.state, Sight(3.0, BoxB), NoMatch);
    ReusedFrameStable(r3.state, Sight(16.0, BoxB), NoMatch);
  }

  /** The first three frames, judged on sampled frames only: the reused frames start no timer. */
  lemma {:induction false} GuestSettles(directory: seq<KnownFaces.DirEntry>)
    ensures var s0 := Init(directory);
      var r0 := Step(s0, Sight(0.0, BoxA), NoMatch);
      var r1 := Step(r0.state, Sight(1.0, BoxA), NoMatch);
      var r2 := Step(r1.state, Sight(2.0, BoxA), NoMatch);
      && !HasEnroll(r0.effects) && !HasEnroll(r1.effects) && !HasEnroll(r2.effects)
      && r2.state.frameCount == 3 && r2.state.unknownLoc == Some(BoxA)
      && r2.state.tracker == Stability.Tracker(Some(Center(BoxA)), None, 0)
  {
    var s0 := Init(directory);
    var r0 := Step(s0, Sight(0.0, BoxA), NoMatch);
    StepEnrollShape(s0, Sight(0.0, BoxA), NoMatch, Sampled(s0));
    assert r0.state.tracker == Stability.Tracker(Some(Center(BoxA)), None, 0);
    var r1 := Step(r0.state, Sight(1.0, BoxA), NoMatch);
    assert r1.state.tracker == Stability.Tracker(Some(Center(BoxA)), None, 0);
  }

  /** From there, judged on sampled frames only: the jump starts no timer, so time 16 enrolls nobody. */
  lemma {:induction false} GuestJumps(s: State)
    requires s.frameCount == 3 && s.unknownLoc == Some(BoxA)
    requires s.tracker == Stability.Tracker(Some(Center(BoxA)), None, 0)
    ensures var r3 := Step(s, Sight(3.0, BoxB), NoMatch);
      var r4 := Step(r3.state, Sight(16.0, BoxB), NoMatch);
      !HasEnroll(r3.effects) && !HasEnroll(r4.effects)
  {
    var r3 := Step(s, Sight(3.0, BoxB), NoMatch);
    StepEnrollShape(s, Sight(3.0, BoxB), NoMatch, Sampled(s));
    assert r3.state.frameCount == 4;
  }

  /** Judging stability only on sampled frames, the same guest is never enrolled. */
  lemma {:induction false} JumpingGuestNotEnrolled(directory: seq<KnownFaces.DirEntry>)
    ensures var s0 := Init(directory);
      var r0 := Step(s0, Sight(0.0, BoxA), NoMatch);
      var r1 := Step(r0.state, Sight(1.0, BoxA), NoMatch);
      var r2 := Step(r1.state, Sight(2.0, BoxA), NoMatch);
      var r3 := Step(r2.state, Sight(3.0, BoxB), NoMatch);
      var r4 := Step(r3.state, Sight(16.0, BoxB), NoMatch);
      && !HasEnroll(r0.effects) && !HasEnroll(r1.effects) && !HasEnroll(r2.effects)
      && !HasEnroll(r3.effects) && !HasEnroll(r4.effects)
  {
    GuestSettles(directory);
    var s0 := Init(directory);
    var r0 := Step(s0, Sight(0.0, BoxA), NoMatch);
    var r1 := Step(r0.state, Sight(1.0, BoxA), NoMatch);
    var r2 := Step(r1.state, Sight(2.0, BoxA), NoMatch);
    GuestJumps(r2.state);
  }

}
