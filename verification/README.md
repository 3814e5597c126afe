# Smart door: per-frame decision logic

A Dafny model of the decision core of the smart-door program in `main.py`.
This is the body of the `SmartDoorSystem.run` loop. It covers:

- frame sampling;
- face classification against the known-face store;
- choice of the enrollment candidate;
- the greeting cooldown table;
- the stability tracker and dwell timer that decide when an unknown guest is enrolled;
- the crop rectangle that `save_new_face` cuts from the frame;
- how `load_known_faces` turns a file name into a person's name.

One frame is a pure function of the state, the frame's inputs and an embedding distance. It returns the next state
and the list of effects the frame asks for: greet a known name, greet the
unknown face, save and enroll a crop. `Trace.Run` chains steps over a
sequence of frames. The lemmas in `Trace` state the properties that relate
frames of a run to each other.

`Door.Frame(state, input, distance, judged)` is one frame, with the
candidate's stability judged on that frame only when `judged` holds.
- The loop exactly as `main.py` runs it judges every frame: `Door.StepAsWritten`.
- The corrected loop judges only sampled frames, where detection produced the sighting: `Door.Step`. "## Findings" explains why.

`Door.Judges(asWritten, state)` picks the rule. Every `Door.Step*` frame
lemma takes `judged`, and every `Trace` lemma takes `asWritten`, so these
hold of `main.py` as written and of the corrected loop alike. The Findings
lemmas are the exception, each holding under one rule only:
- `Door.ReusedFrameStable` and `Door.JumpingGuestEnrolledAsWritten` hold only as written.
- `Door.JumpingGuestNotEnrolled` and `Trace.JumpsNeverEnroll` hold only of the corrected loop.

Modules, one per file:

- `Config`: the program's constants:
  - registration time 15 s;
  - greeting cooldown 20 s;
  - scale 2;
  - every 3rd frame processed;
  - movement threshold 60;
  - missing-face tolerance 10;
  - match tolerance 0.5;
  - crop margin 30;
  - the `Tanimsiz` and `Misafir` names.
- `Faces`: boxes in `(top, right, bottom, left)` order, detections, identities, box area and centre.
- `Classifier`: first-match labelling of detections and the largest-area candidate.
- `Greeting`: the cooldown table (a missing key counts as time 0) and the greeting gates for known names and for the unknown sentinel.
- `Stability`: the tracker of last centre, dwell timer and missing-frame counter.
- `Crop`: the clamped crop rectangle.
- `KnownFaces`: the image-file filter, the name taken from a file name, and loading the store from the directory.
- `Door`: the session state, the step, and single-step properties.
- `Trace`: runs and multi-frame properties.

Modelling choices:

- Time is a `real` input per frame.
- Centres are `real`, because Python's `/` is true division.
- The movement test compares squared distance with `60 * 60`. For a non-negative threshold this is equivalent to comparing `sqrt` with 60.
- The embedding comparison is a `distance` function parameter. A stored identity matches when its distance is at most 0.5.
- Truthiness follows Python: a present tuple is always true, so `if current_unknown_loc` means "a candidate exists".
- An enrollment appends the guest file `Misafir_<stamp>.jpg` to the face directory and reloads the store from the directory, as `save_new_face` does.
  - The stamp text is a frame input.
  - So are the encodings found in the saved crop.
  - `KnownFaces.ReloadAfterSave` shows the reload appends exactly one identity named `Misafir` when the crop yields an encoding, and nothing otherwise.

## Model

| member | source | states |
|---|---|---|
| Classifier.Label | main.py:170-174 | The label names a matching identity, or is `Tanimsiz` when no identity matches. |
| Classifier.Classify | main.py:163-179 | One label per detection, and every detection is counted once between the known names and the unmatched boxes. |
| Classifier.FirstMatch | main.py:169-174 | The chosen identity matches, and no identity before it does; no index is returned exactly when no stored identity matches. |
| Classifier.ClassifyLabels | main.py:168-179 | Detection `i` is labelled with the name of the lowest-index matching identity, or `Tanimsiz` when none matches. |
| Classifier.ClassifyKnowns | main.py:172-175 | The known list is exactly the labels of the matching detections, in detection order. |
| Classifier.ClassifyUnmatched | main.py:176-177 | The unmatched list is exactly the boxes of the non-matching detections, in detection order. |
| Classifier.ClassifyPartition | main.py:168-179 | Every detection lands in exactly one of the known and unmatched lists; together they account for all detections. |
| Classifier.SelectSplitsAll | main.py:168-179 | Selecting by a flag list and by its negation keeps, between the two, exactly as many elements as there are flags. |
| Classifier.SelectCandidate | main.py:182-185 | No candidate exactly when nothing is unmatched. Otherwise the candidate is an unmatched box whose area no other unmatched box exceeds, and every box before it has a strictly smaller area, as with Python's `max`. |
| Greeting.GreetKnowns | main.py:193-200 | The names greeted come from the known names, and no key of the table is dropped. |
| Greeting.GreetFrame | main.py:193-214 | A frame's greetings of known names are those of the known-name loop, and no key of the table is dropped. |
| Greeting.GreetKnownsOnce | main.py:193-200 | A name is greeted once in a frame exactly when it is among the known names and its cooldown has passed, so a repeated name is greeted at most once. Its stamp becomes `now` exactly then and is otherwise unchanged. |
| Greeting.GreetUnknown | main.py:211-214 | The unknown greeting is spoken exactly when the sentinel has cooled down and no known face is present. The sentinel stamp becomes `now` whenever it has cooled down, even when speech is suppressed. All other keys are unchanged. |
| Greeting.GreetFrameStamps | main.py:193-214 | In one frame, a key's stamp either stays or becomes `now`, and the latter only after more than the cooldown. Every greeting spoken stamps its key. |
| Greeting.GreetFrameUnknown | main.py:193-214 | The unknown greeting is spoken exactly when a candidate is present, no known face is, and the sentinel has cooled down. With a known face present it is suppressed, but the sentinel is still stamped. |
| Faces.Area | main.py:185 | The area key of the candidate selection is non-negative for a box whose bottom is not above its top and whose right is not left of its left. |
| Faces.Center | main.py:207-208 | The centre, computed with true division, lies between the box's left and right edges and between its top and bottom edges. |
| Stability.Stable | main.py:217-223 | A sighting can only be stable when a centre is remembered, and a sighting at the remembered centre is always stable. |
| Stability.StableMatchesSqrt | main.py:217-223 | For `d` the distance between the centres, the squared comparison holds exactly when `d` is below 60, as `np.sqrt(...) < MOVEMENT_THRESHOLD` does. |
| Stability.See | main.py:203-245 | A sampled sighting is judged as `Observe` judges it. A reused one resets the counter, moves the centre, and leaves the timer without enrolling. Enrollment needs a sampled, stable sighting. The tracker invariant holds afterwards. |
| Stability.Observe | main.py:203-245 | With a candidate: the counter resets and the centre is overwritten. An unstable frame leaves the timer alone. A stable frame starts an absent timer at `now` and keeps a running one. Enrollment fires exactly when the frame is stable and the timer was already running for at least 15 s, and then the timer is cleared. |
| Stability.Miss | main.py:250-255 | Without a candidate the counter grows by one. Centre and timer are cleared when it exceeds the tolerance, and are preserved otherwise. |
| Stability.FirstSightingAfterResetUnstable | main.py:217-232 | After a reset, the first sighting is never stable, so it neither starts the timer nor enrolls. |
| Crop.CropRect | main.py:110-118 | The crop lies inside the frame. A pixel is in the crop exactly when it is in the frame and in the scaled box widened by the margin. |
| Crop.CropContainsScaledBox | main.py:110-118 | When the scaled box lies inside the frame, the crop contains every pixel of it. |
| KnownFaces.IsImageFile | main.py:99 | A file that passes the case-sensitive extension filter has at least four characters, with a dot four or five characters from its end. |
| KnownFaces.Root | main.py:105 | `os.path.splitext(f)[0]`. Either the whole name, when no dot ends a non-dot prefix, or the text before the last dot, which must have a non-dot character before it. |
| KnownFaces.Capitalize | main.py:105 | The first character upper case and every other character lower case, on ASCII letters. |
| KnownFaces.NameOf | main.py:105 | The name derived from a file name is no longer than it, has no underscore, and is already capitalised. |
| KnownFaces.LoadKnownFaces | main.py:93-107 | The store has at most one identity per directory entry. |
| KnownFaces.LoadKnownFacesContents | main.py:98-106 | Every identity in the store comes from an image file with a face, named after the file and holding its first face. Every such file contributes its identity. |
| KnownFaces.LastIndexOf | main.py:105 | The position returned holds the character and no later position does; nothing is returned exactly when the character is absent. |
| KnownFaces.FirstField | main.py:105 | `split('_')[0]`: a prefix without `_` that is the whole text or is followed by `_`. |
| KnownFaces.CapitalizeIdempotent | main.py:105 | Capitalizing an already capitalized name changes nothing. |
| KnownFaces.LoadKnownFacesAppend | main.py:98-106 | Loading a directory listing split in two gives the concatenation of the two loads. |
| KnownFaces.GuestFileNameNamesGuest | main.py:99-122 | The guest file name passes the image filter and loads under the name `Misafir`. |
| KnownFaces.ReloadAfterSave | main.py:120-128 | After the guest file is added, reloading the store appends one `Misafir` identity with the crop's first encoding, or nothing when the crop yields no encoding. |
| Door.Init | main.py:73-143 | The starting state satisfies the session invariant. |
| Door.Perceive | main.py:153-185 | On a sampled frame, one label per detection, and no candidate exactly when every detection matched. On other frames the known names and candidate are carried over. |
| Door.Advance | main.py:203-255 | Without an enrollment, directory, store and candidate are kept. An enrollment is a single effect that clears the candidate and the timer. The tracker invariant is kept. |
| Door.Frame | main.py:147-255 | After any frame, under either stability rule, the remembered centre is the centre of the candidate the frame keeps. |
| Door.StepAsWritten | main.py:147-255 | The loop as written enrolls exactly when the candidate is stable and its timer has run for at least 15 s, whether or not the frame is sampled. On an unsampled frame that reuses a candidate whose centre is the remembered one, it starts an absent timer at `now`. |
| Door.Step | main.py:147-255 | The corrected frame. On a sampled frame it equals the loop as written. On a frame that reuses the last box, it never enrolls, and with a candidate it leaves the dwell timer alone. On every frame it agrees with the loop as written on the frame counter, the known names, the cooldown table, the greetings spoken, the remembered centre and the missing counter. |
| Door.StepSampling | main.py:153-187 | Under either stability rule, frame counting, labels, known names and candidate are recomputed exactly on sampled frames and carried over otherwise. An enrollment consumes the candidate on any frame that judges stability, sampled or not. |
| Door.StepEnrollment | main.py:120-245 | Under either stability rule, a frame enrolls exactly when it judges stability and its stable candidate's running timer has reached 15 s. As written, every frame judges stability, so an unsampled frame can enroll. An enrollment clears the timer and the candidate and adds the guest file. It grows the store by the guest's identity when the saved crop yields an encoding, and leaves the store unchanged when it yields none. Otherwise directory and store are unchanged. |
| Door.StepEnrollShape | main.py:242-245 | Under either stability rule, the frame enrolls exactly when the enrollment condition holds. The enrollment effect is the frame's last and carries the candidate's crop and the guest file name. |
| Door.StepTracker | main.py:203-255 | Under either stability rule, with a candidate, the counter resets and the centre moves to the candidate's. A frame that does not judge stability, or finds the candidate unstable, leaves the timer alone. A judging, stable frame that does not enroll starts an absent timer at `now` and keeps a running one. As written, that includes unsampled frames. Without a candidate, the counter grows by one, and centre and timer are cleared exactly when it passes the tolerance. |
| Door.TimerStartsOnlyOnStableFrame | main.py:230-232 | Under either stability rule, a timer only starts at `now`, on a frame that judges a stable candidate, when it was not running. |
| Door.Utterance | main.py:195-198 | Every greeting opens with the welcome-back sentence, and it ends with the note about the unregistered guest exactly when the greeting carries the companion flag. |
| Door.SaidParts | main.py:193-214 | The spoken greetings name exactly the greeted names, each with the companion note exactly when a candidate exists. They contain the unknown greeting exactly when it is spoken. |
| Door.StepGreetingParts | main.py:193-214 | A frame's greetings and cooldown table are those of the greeting gate. |
| Door.StepGreetsKnown | main.py:193-200 | Each known name is greeted once in a frame if present and cooled down, and not at all otherwise. Greetings carry the companion note exactly when a candidate is present. |
| Door.StepGreetsUnknown | main.py:203-214 | The unknown greeting is spoken exactly when a candidate is present, no known face is, and the sentinel has cooled down. With a known face present and the sentinel cooled down, it is suppressed but the sentinel is still stamped. |
| Door.StepCooldown | main.py:193-214 | Per key, a frame leaves the stamp or moves it to `now` after more than the cooldown. Every greeting stamps its key. No key is dropped. |
| Door.StepPreservesValid | main.py:98-255 | Under either stability rule, a frame keeps the session invariant: the store mirrors the directory, labels pair with locations, and the tracker is consistent. |
| Door.HelloGreetings | main.py:193-199 | The greeting effects for a list of names greet those names in order. |
| Door.GreetingsAppend | main.py:193-214 | The greeted names of concatenated effect lists concatenate. |
| Door.ReusedFrameStable | main.py:153-245 | As written, a frame that reuses the sampled box is stable. It starts an absent timer at `now` and enrolls once the timer is due. |
| Door.JumpingGuestEnrolledAsWritten | main.py:153-245 | A concrete run, as written, whose two sampled sightings are both unstable, 200 pixels apart, and which is still enrolled at time 16. |
| Door.JumpingGuestNotEnrolled | main.py:153-245 | The same run, judged only on sampled frames, enrolls on no frame. |
| Trace.JumpsNeverEnroll | main.py:217-245 | In a corrected run where every sampled sighting is unstable, no frame enrolls, and a timer not running at the start never starts. |
| Trace.Run | main.py:147-255 | Running the loop over frames, as written or corrected, gives a recording in which every frame is one step under that rule. |
| Trace.RunFrameCount | main.py:137-187 | In runs of the loop as written and of the corrected loop: frame `i` of a run has counter `frameCount + i`. |
| Trace.RunSampled | main.py:153-187 | In runs of the loop as written and of the corrected loop: frame `i` of a run is sampled exactly when `frameCount + i` is a multiple of 3. |
| Trace.RunValid | main.py:98-255 | In runs of the loop as written and of the corrected loop: every state of a run from a valid state is valid. |
| Trace.StoreOnlyGrows | main.py:120-128 | In runs of the loop as written and of the corrected loop: along a run, each store is a prefix of every later one. |
| Trace.StampsAdvanceByCooldown | main.py:193-214 | In runs of the loop as written and of the corrected loop: along a run, a key's stamp stays or moves forward by more than the cooldown. |
| Trace.GreetingsSpaced | main.py:193-200 | In runs of the loop as written and of the corrected loop: two greetings of the same known name in a run are more than 20 s apart. |
| Trace.UnknownGreetingsSpaced | main.py:211-214 | In runs of the loop as written and of the corrected loop: two unknown-face greetings in a run are more than 20 s apart. |
| Trace.TimerOrigin | main.py:230-232 | In runs of the loop as written and of the corrected loop: a running timer holds the time of some earlier frame since the timer was last clear. |
| Trace.EnrollmentsSpaced | main.py:230-245 | In runs of the loop as written and of the corrected loop: with a clock that never goes back, two enrollments are at least 15 s apart. |
| Trace.AbsenceCounts | main.py:250-255 | In runs of the loop as written and of the corrected loop: `n` frames without a candidate add `n` to the counter, and more than 10 of them clear centre and timer. |
| Trace.PresenceKeepsTimer | main.py:217-248 | In runs of the loop as written and of the corrected loop: while a candidate is present on every frame and nothing enrolls, a running timer keeps its start, however much the face moves. |

## Left out

- Audio: speech synthesis, the voice cache, playback threads and the `is_playing` flag. Speech is an effect in the step's output. Because playback is concurrent, a request made while audio is playing is dropped by the real system, so the effects are requests, not what is heard.
- The `Sistem başlatıldı` announcement at start-up is I/O outside the loop body.
- Face detection, encoding and `compare_faces` come from a foreign library. Detections are a frame input. Comparison is a `distance` function parameter compared with 0.5.
- Camera capture, resizing, colour conversion, drawing boxes and the remaining-seconds text, the window and the quit key are UI and I/O. The loop ending when a frame cannot be read is not modelled either.
- Directory listing order: the saved guest file is assumed to be listed last on reload. Real `os.listdir` order is arbitrary.
- Writing a file whose name already exists (two enrollments in the same second) replaces it. The model appends a second entry instead.
- Timestamp formatting with `datetime.now()` is a frame input, the `stamp` text.
- Floating-point effects: time, centres and distances are exact reals.
- `int(1/FRAME_SCALING)` is the constant 2.
- KnownFaces.Capitalize: only ASCII letters change case. Python's `capitalize` also handles non-ASCII letters.
- There is no enrollment-failure or retry branch, because `save_new_face` returns True (main.py:130). Greetings are gated only by the cooldown.
- The face directory is assumed to change only through enrollment. `load_known_faces` re-lists the whole directory (main.py:98). So files that others add or delete during a session appear or disappear at the next reload. `Trace.StoreOnlyGrows` depends on this assumption.
- Door.Step judges stability only on sampled frames, and so departs from `main.py`, as "## Findings" explains. `Door.StepAsWritten` and every run with `asWritten` set keep the code's behaviour. The `Door.Step*` frame lemmas and the `Trace` lemmas hold under both rules, except the Findings lemmas named above.
- A known identity named `Tanimsiz` shares its cooldown key with the unknown sentinel, as in the code.

## Findings

| source | as written | input that shows it | evidently intended | confidence | as-written member | corrected member |
|---|---|---|---|---|---|---|
| main.py:153-245 | On frames that are not sampled, the loop reuses `current_unknown_loc` from the last sampled frame and runs the stability test on it. It compares that box's centre with `last_unknown_center`, which it wrote itself on the previous frame. The distance is 0, so every reused frame is stable. It starts the dwell timer and enrolls once 15 s have passed, however far the face jumped between sampled frames. | Box `(0,10,10,0)` at t=0, reused at t=1 and t=2, then the box 200 pixels to the right at t=3, reused at t=16. Both sampled sightings are unstable, yet the timer starts at t=1 and the guest is enrolled at t=16. | Stability is judged between consecutive detections, so a face that moves by the threshold between every pair of sampled frames never starts the timer and is never enrolled. | not executed | Door.JumpingGuestEnrolledAsWritten | Trace.JumpsNeverEnroll |

`Door.ReusedFrameStable` states the as-written behaviour for every state
where the candidate's centre is the remembered one. The contract of
`Door.Frame` shows every frame leaves the state that way. `Door.JumpingGuestNotEnrolled`
runs the same input through the corrected step. In the corrected step,
`Stability.See` judges a reused sighting as no evidence of stillness. Such a
frame still resets the missing counter, keeps the centre, and leaves a
running timer alone. Enrollment therefore happens only on a sampled frame
whose sighting is stable.
