/** The merch section's ticker: a strip of the items shown twice, moved by
    an endless animation whose rate follows the scroll speed (clamped to
    between 1x and 5x) and whose keyframes flip with the scroll direction. */
module MerchSection {
  import opened JsValue
  import opened WebAnimation
  import opened TransitionUtils

  /** The duration the section gives its animation. */
  const TickerDuration: Duration := 60000.0

  /** `Math.max(1, Math.min(1 + scrollSpeed / 100, 5))`. */
  function ClampedRate(scrollSpeed: real): (r: real)
    ensures 1.0 <= r <= 5.0
    ensures 0.0 <= scrollSpeed <= 400.0 ==> r == 1.0 + scrollSpeed / 100.0
    ensures scrollSpeed <= 0.0 ==> r == 1.0
    ensures scrollSpeed >= 400.0 ==> r == 5.0
  {
    Max(1.0, Min(1.0 + scrollSpeed / 100.0, 5.0))
  }

  /** The children of the ticker: every item twice in a row, or nothing for
      no items. */
  function Strip<T>(items: seq<T>): (r: seq<T>)
    ensures |r| == 2 * |items|
    ensures r[..|items|] == items && r[|items|..] == items
  {
    if |items| > 0 then items + items else []
  }

  /** Moving by half the strip shows the same items in the same places:
      element `i` and element `i + |items|` are the same item. */
  lemma StripRepeatsAtHalf<T>(items: seq<T>, i: nat)
    requires i < |items|
    ensures Strip(items)[i] == Strip(items)[i + |items|] == items[i]
  {
    var r := Strip(items);
    assert r[..|items|][i] == r[i];
    assert r[|items|..][i] == r[i + |items|];
  }

  /** The section's state: the animation created once the ticker element is
      mounted, and the direction it last set keyframes for. The keyframes
      always belong to that direction, which stays `Down` until there is an
      animation. */
  class MerchTicker {
    var animation: Animation?
    var prevScrollDirection: ScrollDirection

    predicate Valid()
      reads this, animation
    {
      (animation == null ==> prevScrollDirection == Down) &&
      (animation != null ==>
        animation.effect.Some? &&
        animation.effect.value.duration == TickerDuration &&
        animation.effect.value.keyframes == KeyframesFor(prevScrollDirection))
    }

    constructor ()
      ensures Valid() && animation == null && prevScrollDirection == Down
    {
      animation := null;
      prevScrollDirection := Down;
    }

    /** The mount effect: with the ticker element present, a forward
        animation of 60 seconds at normal speed. */
    method Mount(tickerPresent: bool)
      requires Valid() && animation == null
      modifies this
      ensures Valid() && prevScrollDirection == old(prevScrollDirection)
      ensures !tickerPresent ==> animation == null
      ensures tickerPresent ==>
                animation != null && fresh(animation) && animation.playbackRate == 1.0 &&
                animation.currentTime == Some(0.0) && animation.effect == Some(Effect(TickerDuration, Forward))
    {
      if tickerPresent {
        animation := new Animation(Forward, TickerDuration);
      }
    }

    /** The effect run when the scroll speed or direction changes: the rate
        becomes the clamped multiplier and, after a turn, the keyframes of
        the new direction are selected at the mirrored time. */
    method Update(scrollSpeed: real, scrollDirection: ScrollDirection)
      requires Valid()
      modifies this, animation
      ensures Valid() && animation == old(animation)
      ensures animation == null ==> prevScrollDirection == old(prevScrollDirection)
      ensures animation != null ==> animation.playbackRate == ClampedRate(scrollSpeed)
      ensures animation != null ==> prevScrollDirection == scrollDirection
      ensures animation != null && scrollDirection == old(prevScrollDirection) ==>
                animation.effect == old(animation.effect) && animation.currentTime == old(animation.currentTime)
      ensures animation != null && scrollDirection != old(prevScrollDirection) ==>
                animation.effect == Some(Effect(TickerDuration, KeyframesFor(scrollDirection))) &&
                animation.currentTime == Some(MirroredTime(RawTime(old(animation.currentTime)), TickerDuration))
    {
      if animation == null {
        return;
      }
      animation.playbackRate := ClampedRate(scrollSpeed);
      if scrollDirection != prevScrollDirection {
        TurnTo(animation, scrollDirection);
        prevScrollDirection := scrollDirection;
      }
    }
  }

  /** A turn of the section's ticker keeps the picture: the offset the new
      keyframes show at the mirrored time equals the old offset, or differs
      from it by half the strip, which shows the same items. */
  lemma TurnKeepsPicture(prev: ScrollDirection, next: ScrollDirection, raw: real)
    requires prev != next && raw >= 0.0
    ensures SamePicture(Offset(KeyframesFor(next), MirroredTime(raw, TickerDuration), TickerDuration),
                        Offset(KeyframesFor(prev), raw, TickerDuration))
  {
    assert KeyframesFor(next) == Flip(KeyframesFor(prev));
    MirrorKeepsPicture(KeyframesFor(prev), raw, TickerDuration);
  }
}
