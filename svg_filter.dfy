/** The `SVGFilter` component: a displacement filter whose noise seed, when
    the filter is animated, counts up on every interval tick and wraps back
    to 0 after the maximum seed. */
module SvgFilter {

  /** The largest seed before the counter wraps. */
  const MaxSeed: int := 1000

  /** The filter template's fields that the model uses. */
  datatype Template = Template(baseFrequency: real, numOctaves: int, scale: real)

  /** `defaultSVGFilterTemplate`. */
  const DefaultTemplate: Template := Template(0.2, 6, 2.5)

  /** `prev >= MAX_SEED ? 0 : prev + 1`. */
  function NextSeed(prev: int): (next: int)
    ensures 0 <= prev < MaxSeed ==> next == prev + 1
    ensures prev >= MaxSeed ==> next == 0
    ensures prev >= 0 ==> 0 <= next <= MaxSeed
  {
    if prev >= MaxSeed then 0 else prev + 1
  }

  /** The seed after `k` ticks from the initial 0. */
  function SeedAfter(k: nat): int
  {
    if k == 0 then 0 else NextSeed(SeedAfter(k - 1))
  }

  /** The seed counts the ticks modulo 1001, so it always lies in
      [0, 1000]. */
  lemma {:induction false} SeedAfterIsCount(k: nat)
    ensures SeedAfter(k) == k % (MaxSeed + 1)
    ensures 0 <= SeedAfter(k) <= MaxSeed
  {
    if k > 0 {
      SeedAfterIsCount(k - 1);
    }
  }

  /** From 0 the seed is back at 0 after exactly 1001 ticks and not before. */
  lemma SeedPeriod(k: nat)
    requires 0 < k <= MaxSeed + 1
    ensures SeedAfter(k) == 0 <==> k == MaxSeed + 1
  {
    SeedAfterIsCount(k);
  }

  /** One mounted filter: whether it animates and its seed state. */
  class Filter {
    const animate: bool
    var currentSeed: int

    predicate Valid()
      reads this
    {
      0 <= currentSeed <= MaxSeed
    }

    constructor (animate: bool)
      ensures Valid() && this.animate == animate && currentSeed == 0
    {
      this.animate := animate;
      currentSeed := 0;
    }

    /** One interval tick. The interval is installed only for an animated
        filter, so only those ever tick. */
    method Tick()
      requires Valid() && animate
      modifies this
      ensures Valid() && currentSeed == NextSeed(old(currentSeed))
    {
      currentSeed := if currentSeed >= MaxSeed then 0 else currentSeed + 1;
    }

    /** The seed handed to `feTurbulence`: the counter, or 0 for a filter
        that does not animate. */
    function RenderedSeed(): (seed: int)
      reads this
      requires Valid()
      ensures 0 <= seed <= MaxSeed
      ensures !animate ==> seed == 0
    {
      if animate then currentSeed else 0
    }
  }
}
