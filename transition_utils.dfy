/** The helpers of `src/utils/transitionUtils.ts`: the frame loop of
    `animate` with linear easing, the `vw`/`vh` conversions and
    `getValueForBreakpoint`. */
module TransitionUtils {
  import opened JsString
  import ScreenSize

  function Min(a: real, b: real): real { if a <= b then a else b }
  function Max(a: real, b: real): real { if a >= b then a else b }

  /** The progress of a frame, `Math.min(elapsed / duration, 1)`: never past
      1, exactly 1 from the duration on, and the elapsed fraction before it. */
  function Progress(elapsed: real, duration: real): (t: real)
    requires duration > 0.0
    ensures t <= 1.0
    ensures elapsed >= duration ==> t == 1.0
    ensures elapsed < duration ==> t == elapsed / duration && t < 1.0
    ensures elapsed >= 0.0 ==> t >= 0.0
  {
    Min(elapsed / duration, 1.0)
  }

  /** The value `animate` hands to `setValue` at a frame, with the default
      linear easing. */
  function FrameValue(start: real, end: real, duration: real, elapsed: real): (v: real)
    requires duration > 0.0
    ensures elapsed >= duration ==> v == end
    ensures 0.0 <= elapsed < duration ==> v == start + (end - start) * (elapsed / duration)
  {
    start + (end - start) * Progress(elapsed, duration)
  }

  /** With linear easing the value starts at `start`, is `end` from the
      duration on, and never leaves the interval between the two once time
      has started. */
  lemma FrameValueBounds(start: real, end: real, duration: real, elapsed: real)
    requires duration > 0.0
    ensures elapsed == 0.0 ==> FrameValue(start, end, duration, elapsed) == start
    ensures elapsed >= duration ==> FrameValue(start, end, duration, elapsed) == end
    ensures elapsed >= 0.0 ==>
              Min(start, end) <= FrameValue(start, end, duration, elapsed) <= Max(start, end)
  {
    var t := Progress(elapsed, duration);
    if elapsed >= 0.0 {
      if start <= end {
        assert (end - start) * t <= (end - start) * 1.0;
      } else {
        assert (start - end) * t <= (start - end) * 1.0;
      }
    }
  }

  /** `animate(start, end, duration, setValue)` run over the elapsed times
      of the animation frames the browser delivers. Each frame sets the
      value; another frame is requested while the progress is below 1, and
      the promise resolves on the first frame that reaches 1. `values` are
      the values set, in order; `resolved` says whether the promise resolved
      within the frames given. */
  method Animate(start: real, end: real, duration: real, frames: seq<real>)
    returns (values: seq<real>, resolved: bool)
    requires duration > 0.0
    ensures |values| <= |frames|
    ensures forall i :: 0 <= i < |values| ==> values[i] == FrameValue(start, end, duration, frames[i])
    ensures forall i :: 0 <= i < |values| - 1 ==> frames[i] < duration
    ensures resolved <==> |values| > 0 && frames[|values| - 1] >= duration
    ensures !resolved ==> |values| == |frames|
    ensures resolved ==> values[|values| - 1] == end
  {
    values := [];
    resolved := false;
    var i := 0;
    while i < |frames| && !resolved
      invariant 0 <= i <= |frames| && |values| == i
      invariant forall j :: 0 <= j < i ==> values[j] == FrameValue(start, end, duration, frames[j])
      invariant forall j :: 0 <= j < i - 1 ==> frames[j] < duration
      invariant resolved <==> i > 0 && frames[i - 1] >= duration
    {
      var t := Progress(frames[i], duration);
      assert start + (end - start) * t == FrameValue(start, end, duration, frames[i]);
      values := values + [start + (end - start) * t];
      if t >= 1.0 {
        resolved := true;
      }
      i := i + 1;
    }
    if resolved {
      FrameValueBounds(start, end, duration, frames[|values| - 1]);
    }
  }

  /** `vw(value, viewWidth)`: thousandths of the view width. */
  function Vw(value: real, viewWidth: real): (r: real)
    ensures value == 1000.0 ==> r == viewWidth
    ensures value == 0.0 ==> r == 0.0
    ensures viewWidth >= 0.0 && 0.0 <= value <= 1000.0 ==> 0.0 <= r <= viewWidth
  {
    viewWidth * value / 1000.0
  }

  /** `vh(value, viewHeight)`: hundredths of the view height. */
  function Vh(value: real, viewHeight: real): (r: real)
    ensures value == 100.0 ==> r == viewHeight
    ensures value == 0.0 ==> r == 0.0
    ensures viewHeight >= 0.0 && 0.0 <= value <= 100.0 ==> 0.0 <= r <= viewHeight
  {
    viewHeight * value / 100.0
  }

  /** Unlike `vh`, `vw` divides by 1000: for the same length and value it is
      a tenth of `vh`, and `vw(100, w)` is a tenth of the width. */
  lemma VwIsATenthOfVh(value: real, length: real)
    ensures Vw(value, length) * 10.0 == Vh(value, length)
    ensures Vw(100.0, length) == length / 10.0
  {
  }

  /** `getValueForBreakpoint(mobile, tablet, desktop, current)`. The three
      tests compare strings, and the second repeats the first: the value
      chosen is `mobile` for a name at or after "xs" in string order and
      `desktop` for every other, so `tablet` is never chosen. */
  function GetValueForBreakpoint<T>(mobile: T, tablet: T, desktop: T, current: string): (r: T)
    ensures r == if StringGe(current, "xs") then mobile else desktop
  {
    if StringGe(current, ScreenSize.Name(ScreenSize.XS)) then mobile
    else if StringGe(current, ScreenSize.Name(ScreenSize.XS)) then tablet
    else if StringGe(current, ScreenSize.Name(ScreenSize.MD)) then desktop
    else desktop
  }

  /** Among the breakpoint names, only "xs" yields `mobile`; "sm" and "md"
      yield `desktop`, as do the larger ones. */
  lemma {:induction false} BreakpointValueByName<T>(mobile: T, tablet: T, desktop: T, b: ScreenSize.Breakpoint)
    ensures GetValueForBreakpoint(mobile, tablet, desktop, ScreenSize.Name(b))
            == if b == ScreenSize.XS then mobile else desktop
  {
    var n := ScreenSize.Name(b);
    if b == ScreenSize.XS {
      assert StringGe(n[1..], "xs"[1..]);
    } else {
      assert n[0] < 'x' || (n[0] == 'x' && n[1] < 's');
      assert StringLess(n, "xs");
    }
  }
}
