/** The `useTickerAnimation` hook: on every render with an animation it
    either sets the playback rate from the scroll speed or, when the scroll
    direction has turned, ramps the rate down to 0 and then flips the
    keyframes while mirroring the current time. */
module TickerAnimation {
  import opened JsValue
  import opened WebAnimation
  import opened TransitionUtils

  /** The defaults of the ticker configuration. */
  const DefaultLerp: real := 50.0
  const DefaultSpeedDivisor: real := 55.0

  /** `1 + scrollSpeed / speedDivisor`: at rest the normal rate, faster the
      faster the page scrolls (for a positive divisor). */
  function SpeedMultiplier(scrollSpeed: real, speedDivisor: real): (r: real)
    requires speedDivisor != 0.0
    ensures scrollSpeed == 0.0 ==> r == 1.0
    ensures speedDivisor > 0.0 && scrollSpeed >= 0.0 ==> r >= 1.0
    ensures speedDivisor > 0.0 && scrollSpeed < 0.0 ==> r < 1.0
  {
    1.0 + scrollSpeed / speedDivisor
  }

  /** A faster scroll never gives a lower rate when the divisor is positive. */
  lemma SpeedMultiplierMonotone(s1: real, s2: real, speedDivisor: real)
    requires speedDivisor > 0.0 && s1 <= s2
    ensures SpeedMultiplier(s1, speedDivisor) <= SpeedMultiplier(s2, speedDivisor)
  {
    var q1, q2 := s1 / speedDivisor, s2 / speedDivisor;
    assert speedDivisor * q1 == s1 && speedDivisor * q2 == s2;
    if q2 < q1 {
      ScaleStrict(q2, q1, speedDivisor);
    }
  }

  /** The state the hook keeps between renders: its two refs, its options,
      and the rate ramp that is in flight while `animationActive` is set
      (the animation it drives, the rate it started from and the direction
      its completion will select). */
  class TickerHook {
    const lerp: real
    const speedDivisor: real
    var prevScrollDirection: ScrollDirection
    var animationActive: bool
    var ramp: Animation?
    var rampStart: real
    var rampDirection: ScrollDirection

    predicate Valid()
      reads this
    {
      lerp > 0.0 && speedDivisor != 0.0 && (animationActive <==> ramp != null)
    }

    /** The first render: options left out take the configured defaults. */
    constructor (lerpOption: Option<real>, speedDivisorOption: Option<real>)
      requires lerpOption.None? || lerpOption.value > 0.0
      requires speedDivisorOption.None? || speedDivisorOption.value != 0.0
      ensures Valid()
      ensures lerp == (if lerpOption.Some? then lerpOption.value else DefaultLerp)
      ensures speedDivisor == (if speedDivisorOption.Some? then speedDivisorOption.value else DefaultSpeedDivisor)
      ensures prevScrollDirection == Down && !animationActive
    {
      lerp := if lerpOption.Some? then lerpOption.value else DefaultLerp;
      speedDivisor := if speedDivisorOption.Some? then speedDivisorOption.value else DefaultSpeedDivisor;
      prevScrollDirection := Down;
      animationActive := false;
      ramp := null;
      rampStart := 0.0;
      rampDirection := Down;
    }

    /** The effect run after a render. Without an animation, or while a
        ramp is in flight, nothing happens. In the same direction as before
        the rate follows the scroll speed; after a turn a ramp from the
        current rate to 0 starts and nothing else changes yet. */
    method Effect(animation: Animation?, scrollSpeed: real, scrollDirection: ScrollDirection)
      requires Valid()
      modifies this, animation
      ensures Valid()
      ensures animation == null || old(animationActive) ==>
                animationActive == old(animationActive) && ramp == old(ramp) &&
                prevScrollDirection == old(prevScrollDirection) &&
                rampStart == old(rampStart) && rampDirection == old(rampDirection)
      ensures animation != null ==>
                animation.effect == old(animation.effect) && animation.currentTime == old(animation.currentTime)
      ensures animation != null && old(animationActive) ==>
                animation.playbackRate == old(animation.playbackRate)
      ensures animation != null && !old(animationActive) && scrollDirection == old(prevScrollDirection) ==>
                animation.playbackRate == SpeedMultiplier(scrollSpeed, speedDivisor) &&
                !animationActive && prevScrollDirection == old(prevScrollDirection)
      ensures animation != null && !old(animationActive) && scrollDirection != old(prevScrollDirection) ==>
                animationActive && ramp == animation && rampStart == old(animation.playbackRate) &&
                rampDirection == scrollDirection && prevScrollDirection == old(prevScrollDirection) &&
                animation.playbackRate == old(animation.playbackRate)
    {
      if animation == null || animationActive {
        return;
      }
      if scrollDirection != prevScrollDirection {
        animationActive := true;
        ramp := animation;
        rampStart := animation.playbackRate;
        rampDirection := scrollDirection;
      } else {
        animation.playbackRate := SpeedMultiplier(scrollSpeed, speedDivisor);
      }
    }

    /** One animation frame of the ramp, `elapsed` milliseconds after it
        started. Before `lerp` milliseconds the rate is the interpolated
        value. At the end the rate is 0 and the ramp completes: the
        keyframes of the ramp's direction are selected at the mirrored time
        and the direction is remembered; an animation without an effect
        makes `setKeyframes` throw, and then only the flag is cleared. */
    method Frame(elapsed: real)
      requires Valid() && ramp != null
      modifies this, ramp
      ensures Valid()
      ensures old(ramp).playbackRate == FrameValue(old(rampStart), 0.0, lerp, elapsed)
      ensures rampStart == old(rampStart) && rampDirection == old(rampDirection)
      ensures elapsed < lerp ==>
                ramp == old(ramp) && animationActive && prevScrollDirection == old(prevScrollDirection) &&
                ramp.effect == old(ramp.effect) && ramp.currentTime == old(ramp.currentTime)
      ensures elapsed >= lerp ==> old(ramp).playbackRate == 0.0 && !animationActive
      ensures elapsed >= lerp && old(ramp.effect).Some? ==>
                old(ramp).effect == Some(old(ramp.effect).value.(keyframes := KeyframesFor(old(rampDirection)))) &&
                old(ramp).currentTime ==
                  Some(MirroredTime(RawTime(old(ramp.currentTime)), EffectiveDuration(old(ramp.effect)))) &&
                prevScrollDirection == old(rampDirection)
      ensures elapsed >= lerp && old(ramp.effect).None? ==>
                old(ramp).effect == old(ramp.effect) && old(ramp).currentTime == old(ramp.currentTime) &&
                prevScrollDirection == old(prevScrollDirection)
    {
      var animation := ramp;
      animation.playbackRate := FrameValue(rampStart, 0.0, lerp, elapsed);
      FrameValueBounds(rampStart, 0.0, lerp, elapsed);
      if Progress(elapsed, lerp) < 1.0 {
        return;
      }
      if animation.effect.Some? {
        TurnTo(animation, rampDirection);
        prevScrollDirection := rampDirection;
      }
      animationActive := false;
      ramp := null;
    }
  }
}
