/** The screen-size hook (`src/hooks/useScreenSize.ts`): the breakpoint a
    window width falls in, the mobile/tablet/desktop flags, and the state
    update that keeps the previous state when nothing changed. Window
    widths and heights are whole CSS pixels. */
module ScreenSize {
  import opened JsValue

  datatype Breakpoint = XS | SM | MD | LG | XL | XXL

  /** The string each breakpoint constant stands for. */
  function Name(b: Breakpoint): string
  {
    match b
    case XS => "xs"
    case SM => "sm"
    case MD => "md"
    case LG => "lg"
    case XL => "xl"
    case XXL => "2xl"
  }

  /** `breakpointValues`: the width from which each breakpoint applies. */
  function MinWidth(b: Breakpoint): int
  {
    match b
    case XS => 0
    case SM => 640
    case MD => 768
    case LG => 1024
    case XL => 1280
    case XXL => 1536
  }

  /** The position of a breakpoint, smallest first. */
  function Rank(b: Breakpoint): nat
  {
    match b
    case XS => 0
    case SM => 1
    case MD => 2
    case LG => 3
    case XL => 4
    case XXL => 5
  }

  /** The thresholds grow strictly with the breakpoint. */
  lemma ThresholdsIncrease(a: Breakpoint, b: Breakpoint)
    ensures Rank(a) < Rank(b) <==> MinWidth(a) < MinWidth(b)
  {
  }

  /** The next larger breakpoint. */
  function Next(b: Breakpoint): (n: Breakpoint)
    requires b != XXL
    ensures Rank(n) == Rank(b) + 1
  {
    match b
    case XS => SM
    case SM => MD
    case MD => LG
    case LG => XL
    case XL => XXL
  }

  /** Width `width` lies in the band of breakpoint `b`: from its threshold
      (the smallest band also takes every width below 640) up to, but not
      including, the next threshold. */
  predicate InBand(width: int, b: Breakpoint)
  {
    (b == XS || MinWidth(b) <= width) && (b == XXL || width < MinWidth(Next(b)))
  }

  /** The classification in `handleResize`: the band the width lies in. */
  function Category(width: int): (b: Breakpoint)
    ensures InBand(width, b)
  {
    if width < MinWidth(SM) then XS
    else if width < MinWidth(MD) then SM
    else if width < MinWidth(LG) then MD
    else if width < MinWidth(XL) then LG
    else if width < MinWidth(XXL) then XL
    else XXL
  }

  /** The bands do not overlap: a width lies in the band of its category and
      of no other breakpoint. */
  lemma CategoryIsTheOnlyBand(width: int, b: Breakpoint)
    ensures InBand(width, b) <==> b == Category(width)
  {
  }

  /** A wider window never falls in a smaller breakpoint. */
  lemma CategoryMonotone(w1: int, w2: int)
    requires w1 <= w2
    ensures Rank(Category(w1)) <= Rank(Category(w2))
  {
  }

  /** `isMobile`: the bands below `md`, and the first width of `md`. */
  function IsMobile(width: int): (b: bool)
    ensures b <==> Rank(Category(width)) < Rank(MD) || width == MinWidth(MD)
  {
    width <= MinWidth(MD)
  }

  /** `isTablet`: band `md` without its first width, and the first width
      of `lg`. */
  function IsTablet(width: int): (b: bool)
    ensures b <==> (Category(width) == MD && width != MinWidth(MD)) || width == MinWidth(LG)
  {
    width > MinWidth(MD) && width <= MinWidth(LG)
  }

  /** `isDesktop`: the bands from `lg` up, without the first width of `lg`. */
  function IsDesktop(width: int): (b: bool)
    ensures b <==> Rank(Category(width)) >= Rank(LG) && width != MinWidth(LG)
  {
    width > MinWidth(LG)
  }

  /** Every width has exactly one of the three flags. */
  lemma ExactlyOneFlag(width: int)
    ensures IsMobile(width) || IsTablet(width) || IsDesktop(width)
    ensures !(IsMobile(width) && IsTablet(width)) && !(IsMobile(width) && IsDesktop(width))
            && !(IsTablet(width) && IsDesktop(width))
  {
  }

  /** The flags include their upper boundary while the bands exclude it: at
      768 pixels the window is in band `md` and yet counts as mobile, and at
      1024 it is in band `lg` and counts as a tablet. */
  lemma FlagsAndBandsDisagreeAtBoundaries()
    ensures Category(768) == MD && IsMobile(768)
    ensures Category(1024) == LG && IsTablet(1024)
  {
  }

  /** The hook's state; `sizeCategory = None` is the initial `''`. */
  datatype ScreenState = ScreenState(width: int, height: int, sizeCategory: Option<Breakpoint>)

  /** The updater passed to `setScreenSize`: the new size and its
      category, or the previous state itself when all three are equal. */
  function NextState(prev: ScreenState, width: int, height: int): (r: ScreenState)
    ensures r == ScreenState(width, height, Some(Category(width)))
    ensures (prev.width == width && prev.height == height && prev.sizeCategory == Some(Category(width))) <==> r == prev
  {
    var category := Category(width);
    if prev.width != width || prev.height != height || prev.sizeCategory != Some(category)
    then ScreenState(width, height, Some(category))
    else prev
  }

  /** Handling the same size twice is handling it once. */
  lemma NextStateIdempotent(prev: ScreenState, width: int, height: int)
    ensures NextState(NextState(prev, width, height), width, height) == NextState(prev, width, height)
  {
  }

  /** The state cell of one mounted hook. */
  class ScreenSizeHook {
    var screenSize: ScreenState

    /** The initial state: the window's size and no category yet. */
    constructor (innerWidth: int, innerHeight: int)
      ensures screenSize == ScreenState(innerWidth, innerHeight, None)
    {
      screenSize := ScreenState(innerWidth, innerHeight, None);
    }

    /** `handleResize` for the window's current size. The result says
        whether a new state object was stored (React then re-renders). */
    method HandleResize(innerWidth: int, innerHeight: int) returns (changed: bool)
      modifies this
      ensures screenSize == NextState(old(screenSize), innerWidth, innerHeight)
      ensures changed <==> screenSize != old(screenSize)
    {
      var next := NextState(screenSize, innerWidth, innerHeight);
      changed := next != screenSize;
      screenSize := next;
    }

    function IsMobileNow(): bool
      reads this
    {
      IsMobile(screenSize.width)
    }
  }
}
