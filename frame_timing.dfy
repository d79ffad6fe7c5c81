// The frame-delta clamp that both revisions of GameScene.update apply before
// advancing the player: a frame hitch is simulated as a single 20 ms step.

module FrameTiming {

  /** The longest step, in seconds, the scene hands to the player. */
  const MaxDelta: real := 0.02

  /** The step used for a frame whose elapsed time is `elapsed`: min(elapsed, MaxDelta). */
  function ClampDelta(elapsed: real): (d: real)
    ensures d <= MaxDelta && d <= elapsed
    ensures d == elapsed || d == MaxDelta
  {
    if elapsed > MaxDelta then MaxDelta else elapsed
  }

  /** Any elapsed time of at least one full step, however long, yields the same step. */
  lemma HitchesCollapse(elapsed: real)
    requires elapsed >= MaxDelta
    ensures ClampDelta(elapsed) == ClampDelta(MaxDelta) == MaxDelta
  {
  }

  /** Elapsed times within the cap, negative ones included, pass through unchanged. */
  lemma ShortFramesPassThrough(elapsed: real)
    requires elapsed <= MaxDelta
    ensures ClampDelta(elapsed) == elapsed
  {
  }
}
