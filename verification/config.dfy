/**
 * The configuration constants of the smart-door loop, as fixed in the
 * constructor of `SmartDoorSystem` (main.py, lines 63-70) and at the few
 * places in the loop that use a literal.
 */
module Config {

  /** Seconds an unknown face must stay stable before it is enrolled. */
  const RegistrationTimeReq: real := 15.0

  /** Minimum number of seconds between two greetings of the same key. */
  const GreetingCooldown: real := 20.0

  /** `int(1 / FRAME_SCALING)` with `FRAME_SCALING = 0.5`. */
  const Scale: int := 2

  /** Detection runs on every third frame only. */
  const ProcessEveryNFrames: nat := 3

  /** Largest centre displacement (in scaled pixels) still judged stable, exclusive. */
  const MovementThreshold: real := 60.0

  /** Number of consecutive candidate-less frames that keep the dwell progress. */
  const MissingFaceTolerance: nat := 10

  /** Tolerance handed to `compare_faces`. */
  const MatchTolerance: real := 0.5

  /** Pixels added around a face before it is cropped for enrollment. */
  const CropMargin: int := 30

  /** Label of an unmatched face, and the cooldown key of the unknown greeting. */
  const UnknownName: string := "Tanimsiz"

  /** Name part of the file an enrolled guest is saved under. */
  const GuestName: string := "Misafir"

}
