/** The events section: every interval tick fades to the next event of the
    list, wrapping round, and the current event's title is highlighted. */
module EventsSection {

  datatype Fade = In | Out

  /** `(prevIndex + 1) % events.length`. */
  function NextIndex(index: nat, count: nat): (next: nat)
    requires count > 0
    ensures next < count
    ensures index + 1 < count ==> next == index + 1
    ensures index + 1 == count ==> next == 0
  {
    (index + 1) % count
  }

  /** The index after `k` ticks from `start`. */
  function IndexAfter(start: nat, count: nat, k: nat): nat
    requires count > 0
  {
    if k == 0 then start else NextIndex(IndexAfter(start, count, k - 1), count)
  }

  /** Ticks compose: `a` ticks and then `b` more are `a + b` ticks. */
  lemma {:induction false} IndexAfterAdd(start: nat, count: nat, a: nat, b: nat)
    requires count > 0
    ensures IndexAfter(start, count, a + b) == IndexAfter(IndexAfter(start, count, a), count, b)
  {
    if b > 0 {
      IndexAfterAdd(start, count, a, b - 1);
    }
  }

  /** Before reaching the end of the list the index counts the ticks. */
  lemma {:induction false} IndexAfterNoWrap(start: nat, count: nat, k: nat)
    requires count > 0 && start + k < count
    ensures IndexAfter(start, count, k) == start + k
  {
    if k > 0 {
      IndexAfterNoWrap(start, count, k - 1);
    }
  }

  /** After as many ticks as there are events the index is back where it
      started: it runs to the last event, wraps to the first and comes back
      up. */
  lemma FullRound(start: nat, count: nat)
    requires count > 0 && start < count
    ensures IndexAfter(start, count, count) == start
  {
    var toEnd := count - 1 - start;
    IndexAfterNoWrap(start, count, toEnd);
    assert IndexAfter(start, count, toEnd + 1) == 0;
    IndexAfterAdd(start, count, toEnd + 1, start);
    IndexAfterNoWrap(0, count, start);
  }

  /** The highlighted entries of the list: exactly the one at the index. */
  function Highlighted(index: nat, count: nat): (h: seq<bool>)
    ensures |h| == count
    ensures forall i :: 0 <= i < count ==> (h[i] <==> i == index)
  {
    seq(count, i => i == index)
  }

  /** When the index names an entry, exactly one entry is highlighted. */
  lemma OneHighlighted(index: nat, count: nat)
    requires index < count
    ensures forall i, j :: 0 <= i < count && 0 <= j < count && Highlighted(index, count)[i] && Highlighted(index, count)[j] ==> i == j
    ensures exists i :: 0 <= i < count && Highlighted(index, count)[i]
  {
    assert Highlighted(index, count)[index];
  }

  /** The carousel over a non-empty list of events: the list must not be
      empty, as the render reads the current event's image. */
  class Carousel {
    const count: nat
    var eventIndex: nat
    var fade: Fade

    predicate Valid()
      reads this
    {
      count > 0 && eventIndex < count
    }

    constructor (count: nat)
      requires count > 0
      ensures Valid() && this.count == count && eventIndex == 0 && fade == In
    {
      this.count := count;
      eventIndex := 0;
      fade := In;
    }

    /** One interval tick: fade out, move on, fade in. */
    method Tick()
      requires Valid()
      modifies this
      ensures Valid()
      ensures eventIndex == NextIndex(old(eventIndex), count) && fade == In
    {
      fade := Out;
      eventIndex := (eventIndex + 1) % count;
      fade := In;
    }
  }
}
