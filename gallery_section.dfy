/** The gallery section: the scroll position inside the section is cut
    into one partition per event and each event partition into eight image
    partitions; the effect run on every scroll selects the event and the
    image to show from them. */
module GallerySection {
  import opened JsValue
  import opened TransitionUtils
  import opened WebAnimation

  /** The margin, in pixels, taken off both ends of the scrollable range. */
  const Buffer: real := 500.0

  /** The number of image partitions in every event partition. */
  const ImagePartitions: nat := 8

  /** The section's bounding rectangle as far as the effect reads it. */
  datatype Rect = Rect(top: real, height: real)

  /** `Object.entries(eventImages)`: each event's name with its images. */
  type EventImages = seq<(string, seq<string>)>

  /** `containerHeight + viewportHeight - buffer * 2`. */
  function ScrollableDistance(rect: Rect, viewportHeight: real): (d: real)
    ensures d > 0.0 <==> rect.height + viewportHeight > 2.0 * Buffer
    ensures d < rect.height + viewportHeight
  {
    rect.height + viewportHeight - Buffer * 2.0
  }

  /** How far the section has been scrolled into, `Math.max(0, viewport -
      (top + buffer))`, clamped to the scrollable distance: never past the
      distance, and never negative when the distance is not. */
  function ClampedScroll(rect: Rect, viewportHeight: real): (c: real)
    ensures c <= ScrollableDistance(rect, viewportHeight)
    ensures ScrollableDistance(rect, viewportHeight) >= 0.0 ==> c >= 0.0
    ensures c == ScrollableDistance(rect, viewportHeight) || c == Max(0.0, viewportHeight - (rect.top + Buffer))
  {
    Min(Max(0.0, viewportHeight - (rect.top + Buffer)), ScrollableDistance(rect, viewportHeight))
  }

  /** The progress in percent: within [0, 100] for a positive distance and a
      scroll inside it, 0 for a distance that is not positive. */
  function ProgressPercentage(clamped: real, distance: real): (p: real)
    ensures distance > 0.0 && 0.0 <= clamped <= distance ==> 0.0 <= p <= 100.0
    ensures distance > 0.0 && clamped == distance ==> p == 100.0
    ensures distance <= 0.0 ==> p == 0.0
  {
    if distance > 0.0 then
      QuotientBelow(clamped, distance, 1.0);
      (clamped / distance) * 100.0
    else 0.0
  }

  /** For `0 <= x <= n * y` the quotient `x / y` lies in [0, n], and below
      `n` when `x` is below `n * y`. */
  lemma QuotientBelow(x: real, y: real, n: real)
    requires y > 0.0
    ensures 0.0 <= x <= n * y ==> 0.0 <= x / y <= n
    ensures 0.0 <= x < n * y ==> x / y < n
    ensures x == y ==> x / y == 1.0
  {
    var q := x / y;
    assert y * q == x;
    if q < 0.0 {
      ScaleStrict(q, 0.0, y);
    }
    if q > n {
      ScaleStrict(n, q, y);
    }
    if q == n {
      assert y * q == n * y;
    }
  }

  /** `Math.floor(clampedScroll / eventPartition)` with `eventPartition =
      distance / events`. With no events the partition is infinite and the
      result 0; a scroll inside the distance falls in one of the event
      partitions. */
  function EventPartition(clamped: real, distance: real, events: nat): (r: int)
    requires distance > 0.0
    ensures events == 0 ==> r == 0
    ensures events > 0 && 0.0 <= clamped < distance ==> 0 <= r < events
  {
    if events == 0 then 0
    else
      var size := distance / events as real;
      assert 0.0 <= clamped < distance ==> 0.0 <= clamped / size < events as real by {
        assert events as real * size == distance;
        QuotientBelow(clamped, size, events as real);
      }
      (clamped / size).Floor
  }

  /** `Math.floor((clampedScroll % eventPartition) / (eventPartition / 8))`,
      the image partition within the current event partition: 0 with no
      events, and for a scroll that is not negative always one of the eight. */
  function ImagePartition(clamped: real, distance: real, events: nat): (r: int)
    requires distance > 0.0
    ensures events == 0 ==> r == 0
    ensures clamped >= 0.0 ==> 0 <= r < ImagePartitions
  {
    if events == 0 then 0
    else
      var size := distance / events as real;
      var part := size / ImagePartitions as real;
      assert clamped >= 0.0 ==> 0.0 <= JsRem(clamped, size) / part < ImagePartitions as real by {
        assert events as real * size == distance;
        assert size > 0.0 by {
          if size <= 0.0 {
            ScaleMonotone(size, 0.0, events as real);
          }
        }
        if clamped >= 0.0 {
          assert ImagePartitions as real * part == size;
          QuotientBelow(JsRem(clamped, size), part, ImagePartitions as real);
        }
      }
      (JsRem(clamped, size) / part).Floor
  }

  /** The state the effect updates: the shown image and event and the
      ref holding the last image partition. */
  datatype GalleryState = GalleryState(imageIndex: int, eventIndex: int, lastImagePartition: int)

  /** `eventImages[eventNames[i]] || []`. */
  function Images(events: EventImages, i: int): (r: seq<string>)
    ensures 0 <= i < |events| ==> r == events[i].1
    ensures !(0 <= i < |events|) ==> r == []
  {
    if 0 <= i < |events| then events[i].1 else []
  }

  /** The two conditions both updates start with: the scroll is past the
      first pixel and not at the end of the distance. */
  predicate Inside(clamped: real, distance: real)
  {
    clamped >= 1.0 && clamped != distance
  }

  /** The effect as written: the image count is read from the event index
      of the render the effect belongs to, which is the previous event
      when the first update has just changed it. */
  function ScrollStepAsWritten(s: GalleryState, events: EventImages, rect: Rect, viewportHeight: real): (r: GalleryState)
    ensures var distance, clamped := ScrollableDistance(rect, viewportHeight), ClampedScroll(rect, viewportHeight);
            !Inside(clamped, distance) ==> r == s
    ensures var distance, clamped := ScrollableDistance(rect, viewportHeight), ClampedScroll(rect, viewportHeight);
            Inside(clamped, distance) ==>
              r.eventIndex == EventPartition(clamped, distance, |events|) &&
              r.lastImagePartition == ImagePartition(clamped, distance, |events|)
    ensures var distance, clamped := ScrollableDistance(rect, viewportHeight), ClampedScroll(rect, viewportHeight);
            Inside(clamped, distance) ==>
              var image, changed := ImagePartition(clamped, distance, |events|), r.eventIndex != s.eventIndex;
              var count := |Images(events, s.eventIndex)|;
              r.imageIndex == (if image != (if changed then 0 else s.lastImagePartition) && count > 0
                               then image % count
                               else if changed then 0 else s.imageIndex)
  {
    var distance := ScrollableDistance(rect, viewportHeight);
    var clamped := ClampedScroll(rect, viewportHeight);
    if !Inside(clamped, distance) then s
    else
      var event := EventPartition(clamped, distance, |events|);
      var image := ImagePartition(clamped, distance, |events|);
      var s1 := if event != s.eventIndex then GalleryState(0, event, 0) else s;
      if image != s1.lastImagePartition then
        var images := Images(events, s.eventIndex);
        GalleryState(if |images| > 0 then image % |images| else s1.imageIndex, s1.eventIndex, image)
      else s1
  }

  /** The effect with the image count read from the event it has just
      selected. */
  function ScrollStep(s: GalleryState, events: EventImages, rect: Rect, viewportHeight: real): (r: GalleryState)
    ensures var distance, clamped := ScrollableDistance(rect, viewportHeight), ClampedScroll(rect, viewportHeight);
            !Inside(clamped, distance) ==> r == s
    ensures var distance, clamped := ScrollableDistance(rect, viewportHeight), ClampedScroll(rect, viewportHeight);
            Inside(clamped, distance) ==>
              r.eventIndex == EventPartition(clamped, distance, |events|) &&
              r.lastImagePartition == ImagePartition(clamped, distance, |events|)
    ensures var distance, clamped := ScrollableDistance(rect, viewportHeight), ClampedScroll(rect, viewportHeight);
            Inside(clamped, distance) ==>
              var image, changed := ImagePartition(clamped, distance, |events|), r.eventIndex != s.eventIndex;
              var count := |Images(events, r.eventIndex)|;
              r.imageIndex == (if image != (if changed then 0 else s.lastImagePartition) && count > 0
                               then image % count
                               else if changed then 0 else s.imageIndex)
  {
    var distance := ScrollableDistance(rect, viewportHeight);
    var clamped := ClampedScroll(rect, viewportHeight);
    if !Inside(clamped, distance) then s
    else
      var event := EventPartition(clamped, distance, |events|);
      var image := ImagePartition(clamped, distance, |events|);
      var s1 := if event != s.eventIndex then GalleryState(0, event, 0) else s;
      if image != s1.lastImagePartition then
        var images := Images(events, s1.eventIndex);
        GalleryState(if |images| > 0 then image % |images| else s1.imageIndex, s1.eventIndex, image)
      else s1
  }

  /** The two effects differ only in the render that changes the event:
      while the event stays the same they read the same image count. */
  lemma AsWrittenAgreesWithinEvent(s: GalleryState, events: EventImages, rect: Rect, viewportHeight: real)
    requires var distance, clamped := ScrollableDistance(rect, viewportHeight), ClampedScroll(rect, viewportHeight);
             Inside(clamped, distance) ==> EventPartition(clamped, distance, |events|) == s.eventIndex
    ensures ScrollStepAsWritten(s, events, rect, viewportHeight) == ScrollStep(s, events, rect, viewportHeight)
  {
  }

  /** The image index names an image of the shown event whenever that event
      has images. */
  predicate ImageInBounds(s: GalleryState, events: EventImages)
  {
    |Images(events, s.eventIndex)| == 0 || 0 <= s.imageIndex < |Images(events, s.eventIndex)|
  }

  /** What the section keeps true: a shown image that exists, an event
      index that names an event, and a last image partition among the eight. */
  predicate GalleryInvariant(s: GalleryState, events: EventImages)
  {
    ImageInBounds(s, events) &&
    (|events| > 0 ==> 0 <= s.eventIndex < |events|) &&
    0 <= s.lastImagePartition < ImagePartitions
  }

  /** The corrected effect keeps the invariant. It changes the event only
      for a scroll inside the range, to the event partition of that scroll,
      and then shows the image partition taken modulo the image count of the
      event it has just selected. */
  lemma ScrollStepKeepsInvariant(s: GalleryState, events: EventImages, rect: Rect, viewportHeight: real)
    requires GalleryInvariant(s, events)
    ensures GalleryInvariant(ScrollStep(s, events, rect, viewportHeight), events)
    ensures var r := ScrollStep(s, events, rect, viewportHeight);
            var distance, clamped := ScrollableDistance(rect, viewportHeight), ClampedScroll(rect, viewportHeight);
            r.eventIndex != s.eventIndex ==>
              Inside(clamped, distance) &&
              r.eventIndex == EventPartition(clamped, distance, |events|) &&
              r.imageIndex == (if |Images(events, r.eventIndex)| > 0
                               then ImagePartition(clamped, distance, |events|) % |Images(events, r.eventIndex)|
                               else 0)
  {
  }

  /** Running the corrected effect again on the same scroll changes nothing
      more, so the re-render that follows an event change settles. */
  lemma ScrollStepSettles(s: GalleryState, events: EventImages, rect: Rect, viewportHeight: real)
    ensures var r := ScrollStep(s, events, rect, viewportHeight);
            ScrollStep(r, events, rect, viewportHeight) == r
  {
  }

  /** Two events, of three images and of one: scrolling straight into the
      second event's third image partition leaves the effect as written,
      after its re-render, on image 2 of an event with one image, so no
      image is shown; the corrected effect shows the event's only image. */
  lemma AsWrittenShowsNoImage()
    ensures var events := [("A", ["a1", "a2", "a3"]), ("B", ["b1"])];
            var s := GalleryState(0, 0, 0);
            var rect := Rect(-550.0, 1600.0);
            var r := ScrollStepAsWritten(s, events, rect, 1000.0);
            GalleryInvariant(s, events) &&
            r == GalleryState(2, 1, 2) &&
            ScrollStepAsWritten(r, events, rect, 1000.0) == r &&
            !ImageInBounds(r, events) &&
            ScrollStep(s, events, rect, 1000.0) == GalleryState(0, 1, 2)
  {
    var rect := Rect(-550.0, 1600.0);
    assert ScrollableDistance(rect, 1000.0) == 1600.0;
    assert ClampedScroll(rect, 1000.0) == 1050.0;
    assert 1050.0 / (1600.0 / 2 as real) == 1.3125;
    assert EventPartition(1050.0, 1600.0, 2) == 1;
    assert JsRem(1050.0, 800.0) == 250.0 by {
      assert 1050.0 / 800.0 == 1.3125;
      assert Trunc(1.3125) == 1;
    }
    assert 250.0 / (800.0 / 8.0) == 2.5;
    assert ImagePartition(1050.0, 1600.0, 2) == 2;
  }

  /** The section: its fixed events and the state of its effect. */
  class Gallery {
    const events: EventImages
    var imageIndex: int
    var eventIndex: int
    var lastImagePartition: int

    function State(): GalleryState
      reads this
    {
      GalleryState(imageIndex, eventIndex, lastImagePartition)
    }

    predicate Valid()
      reads this
    {
      GalleryInvariant(State(), events)
    }

    constructor (events: EventImages)
      ensures Valid() && this.events == events && State() == GalleryState(0, 0, 0)
    {
      this.events := events;
      imageIndex := 0;
      eventIndex := 0;
      lastImagePartition := 0;
    }

    /** The scroll effect. Without a measured container or before the first
        scroll position arrives it does nothing. */
    method ScrollEffect(rect: Option<Rect>, scrollTop: Option<real>, viewportHeight: real)
      requires Valid()
      modifies this
      ensures Valid()
      ensures rect.None? || scrollTop.None? ==> State() == old(State())
      ensures rect.Some? && scrollTop.Some? ==>
                State() == ScrollStep(old(State()), events, rect.value, viewportHeight)
    {
      if rect.None? || scrollTop.None? {
        return;
      }
      ScrollStepKeepsInvariant(State(), events, rect.value, viewportHeight);
      var distance := ScrollableDistance(rect.value, viewportHeight);
      var clamped := ClampedScroll(rect.value, viewportHeight);
      if !Inside(clamped, distance) {
        return;
      }
      var event := EventPartition(clamped, distance, |events|);
      var image := ImagePartition(clamped, distance, |events|);
      if event != eventIndex {
        eventIndex := event;
        imageIndex := 0;
        lastImagePartition := 0;
      }
      if image != lastImagePartition {
        var images := Images(events, eventIndex);
        if |images| > 0 {
          imageIndex := image % |images|;
        }
        lastImagePartition := image;
      }
    }
  }
}
