/**
 * The shake loop of `CoffeeMachine.BrewCoffee`, with times as natural
 * numbers in one common unit (say milliseconds): while the elapsed time is
 * below `brewTime` the machine adds the frame's delta time and yields; once
 * it is not, the brew finishes.
 */
module Brewing {
  import opened Wrappers

  /** One test of the loop condition: `Some(elapsed + dt)` to shake another frame, `None` to finish. */
  function ShakeStep(brewTime: nat, elapsed: nat, dt: nat): (r: Option<nat>)
    ensures r.None? <==> elapsed >= brewTime
    ensures r.Some? ==> r.value == elapsed + dt
  {
    if elapsed < brewTime then Some(elapsed + dt) else None
  }

  /** How many frames the machine shakes when every frame lasts `dt`. */
  function FramesShaking(brewTime: nat, elapsed: nat, dt: nat): nat
    requires dt > 0
    decreases brewTime - elapsed
  {
    match ShakeStep(brewTime, elapsed, dt)
    case None => 0
    case Some(next) => 1 + FramesShaking(brewTime, next, dt)
  }

  /** The time the loop has counted when it finishes, with frames of `dt`. */
  function ElapsedAtFinish(brewTime: nat, elapsed: nat, dt: nat): nat
    requires dt > 0
    decreases brewTime - elapsed
  {
    match ShakeStep(brewTime, elapsed, dt)
    case None => elapsed
    case Some(next) => ElapsedAtFinish(brewTime, next, dt)
  }

  /**
   * With frames of `dt`, a brew that has counted `elapsed` shakes for the
   * least number of frames `k` with elapsed + k * dt >= brewTime, that is
   * ceil((brewTime - elapsed) / dt) frames.
   */
  lemma {:induction false} FramesShakingIsCeiling(brewTime: nat, elapsed: nat, dt: nat)
    requires dt > 0
    ensures var k := FramesShaking(brewTime, elapsed, dt);
      && elapsed + k * dt >= brewTime
      && (k > 0 ==> elapsed + (k - 1) * dt < brewTime)
    decreases brewTime - elapsed
  {
    if elapsed < brewTime {
      var k' := FramesShaking(brewTime, elapsed + dt, dt);
      FramesShakingIsCeiling(brewTime, elapsed + dt, dt);
      assert (1 + k') * dt == dt + k' * dt;
      if k' > 0 {
        assert (k' - 1) * dt == k' * dt - dt;
      }
    }
  }

  /** A brew finishes having counted at least `brewTime` and less than one frame more. */
  lemma {:induction false} FinishWithinOneFrame(brewTime: nat, elapsed: nat, dt: nat)
    requires dt > 0 && elapsed <= brewTime
    ensures brewTime <= ElapsedAtFinish(brewTime, elapsed, dt) < brewTime + dt
    decreases brewTime - elapsed
  {
    if elapsed < brewTime && elapsed + dt <= brewTime {
      FinishWithinOneFrame(brewTime, elapsed + dt, dt);
    }
  }

  /** A five-second brew in frames of 16 ms shakes for 313 frames. */
  lemma FiveSecondBrew()
    ensures FramesShaking(5000, 0, 16) == 313
  {
    FramesShakingIsCeiling(5000, 0, 16);
  }
}
