/** The part of the Web Animations API the site's tickers use: an
    animation's playback rate, current time and keyframe effect, the
    remainder operator on numbers, and the "mirror the current time" step
    both tickers apply when the scroll direction turns. */
module WebAnimation {
  import opened JsValue

  /** The scroll direction the page reports. */
  datatype ScrollDirection = Up | Down

  /** The two keyframe lists: `Forward` moves the strip from
      `translateX(0%)` to `translateX(-50%)`, `Reverse` the other way. */
  datatype Keyframes = Forward | Reverse

  /** The keyframes each direction selects: `Up` the reverse ones. */
  function KeyframesFor(direction: ScrollDirection): (k: Keyframes)
    ensures k == Reverse <==> direction == Up
    ensures k == Forward <==> direction == Down
  {
    match direction
    case Up => Reverse
    case Down => Forward
  }

  /** A non-negative duration in milliseconds. */
  type Duration = d: real | d >= 0.0 witness 0.0

  /** A keyframe effect: its computed duration and its keyframes. */
  datatype Effect = Effect(duration: Duration, keyframes: Keyframes)

  /** The duration of the tickers' animation and the fallback for it. */
  const DefaultDuration: real := 60000.0

  /** An `Animation` object. `currentTime = None` is a `null` time. */
  class Animation {
    var playbackRate: real
    var currentTime: Option<real>
    var effect: Option<Effect>

    /** `element.animate(keyframes, { duration, iterations: Infinity })`:
        a running animation at normal speed from time 0. */
    constructor (keyframes: Keyframes, duration: Duration)
      ensures playbackRate == 1.0 && currentTime == Some(0.0)
      ensures effect == Some(Effect(duration, keyframes))
    {
      playbackRate := 1.0;
      currentTime := Some(0.0);
      effect := Some(Effect(duration, keyframes));
    }

    /** `keyframeEffect.setKeyframes(keyframes)`; with no effect the call
        throws, which the callers handle or exclude. */
    method SetKeyframes(keyframes: Keyframes)
      requires effect.Some?
      modifies this
      ensures effect == Some(old(effect).value.(keyframes := keyframes))
      ensures playbackRate == old(playbackRate) && currentTime == old(currentTime)
    {
      effect := Some(effect.value.(keyframes := keyframes));
    }
  }

  /** Rounding toward zero. */
  function Trunc(x: real): (n: int)
    ensures x >= 0.0 ==> n >= 0 && n as real <= x < n as real + 1.0
    ensures x < 0.0 ==> n <= 0 && n as real - 1.0 < x <= n as real
  {
    if x >= 0.0 then x.Floor else -((-x).Floor)
  }

  /** `a % d` on numbers: the remainder of the division rounded toward zero,
      which keeps the sign of `a`. */
  /** For a positive divisor the remainder lies in [0, d) for a dividend
      that is not negative, and is the dividend itself below `d`; for a
      negative dividend it lies in (-d, 0]. */
  function JsRem(a: real, d: real): (r: real)
    requires d != 0.0
    ensures a >= 0.0 && d > 0.0 ==> 0.0 <= r < d
    ensures 0.0 <= a < d ==> r == a
    ensures a < 0.0 && d > 0.0 ==> -d < r <= 0.0
  {
    if d > 0.0 then
      TruncatedRemainder(a, d);
      a - d * Trunc(a / d) as real
    else a - d * Trunc(a / d) as real
  }

  /** The bounds of `a - d * Trunc(a / d)` for a positive `d`. */
  lemma TruncatedRemainder(a: real, d: real)
    requires d > 0.0
    ensures a >= 0.0 ==> 0.0 <= a - d * Trunc(a / d) as real < d
    ensures 0.0 <= a < d ==> a - d * Trunc(a / d) as real == a
    ensures a < 0.0 ==> -d < a - d * Trunc(a / d) as real <= 0.0
  {
    if a >= 0.0 {
      RemainderOfNonNegative(a, d);
    } else {
      RemainderOfNegative(a, d);
    }
  }

  lemma RemainderOfNonNegative(a: real, d: real)
    requires a >= 0.0 && d > 0.0
    ensures 0.0 <= a - d * Trunc(a / d) as real < d
    ensures a < d ==> Trunc(a / d) == 0
  {
    var q := a / d;
    QuotientBounds(a, d, q);
    var m := Trunc(q);
    RemainderBounds(a, d, q, m);
  }

  lemma RemainderOfNegative(a: real, d: real)
    requires a < 0.0 && d > 0.0
    ensures -d < a - d * Trunc(a / d) as real <= 0.0
  {
    var q := a / d;
    var p := -a / d;
    assert p == -q;
    QuotientBounds(-a, d, p);
    var m := p.Floor;
    assert Trunc(q) == -m;
    RemainderBounds(-a, d, p, m);
  }

  lemma QuotientBounds(a: real, d: real, q: real)
    requires a >= 0.0 && d > 0.0 && q == a / d
    ensures q >= 0.0 && d * q == a
    ensures a < d ==> q < 1.0
  {
    if q < 0.0 {
      ScaleStrict(q, 0.0, d);
    }
    if a < d && q >= 1.0 {
      ScaleMonotone(1.0, q, d);
    }
  }

  lemma RemainderBounds(a: real, d: real, q: real, m: int)
    requires d > 0.0 && d * q == a && m as real <= q < m as real + 1.0
    ensures 0.0 <= a - d * m as real < d
  {
    var n := m as real;
    ScaleMonotone(n, q, d);
    ScaleStrict(q, n + 1.0, d);
    assert d * (n + 1.0) == d * n + d;
  }

  lemma ScaleMonotone(x: real, y: real, d: real)
    requires d > 0.0 && x <= y
    ensures d * x <= d * y
  {
  }

  lemma ScaleStrict(x: real, y: real, d: real)
    requires d > 0.0 && x < y
    ensures d * x < d * y
  {
  }

  /** A whole duration leaves no remainder. */
  lemma JsRemOfDuration(d: real)
    requires d > 0.0
    ensures JsRem(d, d) == 0.0
  {
    assert d / d == 1.0;
    assert (1.0).Floor == 1;
    assert Trunc(d / d) == 1;
  }

  /** `Number(animation.currentTime) || 0`: a `null` time counts as 0. */
  function RawTime(t: Option<real>): (r: real)
    ensures t.None? ==> r == 0.0
    ensures t.Some? ==> r == t.value
  {
    if t.Some? then t.value else 0.0
  }

  /** `animation.effect?.getComputedTiming().duration || 60000`: with no
      effect, or an effect of duration 0, the default duration. */
  function EffectiveDuration(effect: Option<Effect>): (d: real)
    ensures d > 0.0
    ensures effect.Some? && effect.value.duration != 0.0 ==> d == effect.value.duration
    ensures effect.None? || effect.value.duration == 0.0 ==> d == DefaultDuration
  {
    if effect.Some? && effect.value.duration != 0.0 then effect.value.duration else DefaultDuration
  }

  /** `duration - (rawCurrentTime % duration)`: the time that, played with
      the opposite keyframes, shows the strip where it was. For a
      non-negative time it lies in (0, duration], and a time at the end of
      an iteration mirrors to the full duration. */
  function MirroredTime(raw: real, duration: real): (m: real)
    requires duration > 0.0
    ensures raw >= 0.0 ==> 0.0 < m <= duration
    ensures JsRem(raw, duration) == 0.0 ==> m == duration
  {
    duration - JsRem(raw, duration)
  }

  /** The horizontal offset, in percent of the strip, that keyframes `k`
      show at time `t` of an endlessly repeating animation of length `d`. */
  function Offset(k: Keyframes, t: real, d: real): real
    requires d > 0.0
  {
    var p := Phase(t, d);
    if k == Forward then -50.0 * p else -50.0 + 50.0 * p
  }

  /** The fraction of the current iteration played at time `t`. */
  function Phase(t: real, d: real): real
    requires d > 0.0
  {
    JsRem(t, d) / d
  }

  function Flip(k: Keyframes): Keyframes
  {
    if k == Forward then Reverse else Forward
  }

  /** Two offsets show the same picture of a strip made of its items
      twice: they are equal or a half strip apart. */
  predicate SamePicture(x: real, y: real)
  {
    x == y || x == y - 50.0 || x == y + 50.0
  }

  /** Mirroring the time while flipping the keyframes keeps the strip in
      place: the offset is unchanged, except at a whole number of
      iterations, where it moves by exactly half the strip, which shows the
      same picture. */
  lemma {:induction false} MirrorKeepsPicture(k: Keyframes, raw: real, d: real)
    requires raw >= 0.0 && d > 0.0
    ensures JsRem(raw, d) != 0.0 ==> Offset(Flip(k), MirroredTime(raw, d), d) == Offset(k, raw, d)
    ensures SamePicture(Offset(Flip(k), MirroredTime(raw, d), d), Offset(k, raw, d))
  {
    var q := JsRem(raw, d);
    var m := MirroredTime(raw, d);
    if q != 0.0 {
        assert JsRem(m, d) == d - q;
      PhaseComplement(q, d);
      assert Phase(m, d) == 1.0 - Phase(raw, d);
    } else {
      assert m == d;
      JsRemOfDuration(d);
      assert Phase(m, d) == 0.0 && Phase(raw, d) == 0.0;
    }
  }

  lemma PhaseComplement(q: real, d: real)
    requires d > 0.0
    ensures (d - q) / d == 1.0 - q / d
  {
    var x, y := (d - q) / d, q / d;
    assert d * x == d - q && d * y == q;
    var z := x + y - 1.0;
    assert d * z == 0.0;
    if z > 0.0 {
      ScaleStrict(0.0, z, d);
    } else if z < 0.0 {
      ScaleStrict(z, 0.0, d);
    }
  }

  /** What both tickers do when the direction turns: select the keyframes
      of the new direction and move to the mirrored time. The rate is kept. */
  method TurnTo(animation: Animation, direction: ScrollDirection)
    requires animation.effect.Some?
    modifies animation
    ensures animation.effect == Some(old(animation.effect).value.(keyframes := KeyframesFor(direction)))
    ensures animation.currentTime ==
              Some(MirroredTime(RawTime(old(animation.currentTime)), EffectiveDuration(old(animation.effect))))
    ensures animation.playbackRate == old(animation.playbackRate)
  {
    var raw := RawTime(animation.currentTime);
    var duration := EffectiveDuration(animation.effect);
    var progress := JsRem(raw, duration);
    animation.SetKeyframes(KeyframesFor(direction));
    animation.currentTime := Some(duration - progress);
  }
}
