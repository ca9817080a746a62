/** The hero links of `App`: which of the three links the mouse is over,
    how far it is from that link, the arrow shown beside it, the underline,
    and the displacement scale the hovered link's filter gets. */
module AppLinks {
  import opened TransitionUtils
  import opened SvgFilter

  /** The hero has three links: merch, spotify and events. */
  const LinkCount: nat := 3

  /** The link under the mouse for links of height `h` stacked from `top`:
      0 above the first boundary, 1 between the two, 2 below the second,
      and -1 on a boundary itself. */
  function LinkIndex(mouseY: real, top: real, h: real): (i: int)
    ensures -1 <= i < LinkCount as int
  {
    if mouseY < top + h then 0
    else if mouseY > top + h && mouseY < top + h * 2.0 then 1
    else if mouseY > top + h * 2.0 then 2
    else -1
  }

  /** For links of positive height no position is missed except the two
      boundaries, and each link covers exactly its band. */
  lemma LinkIndexBands(mouseY: real, top: real, h: real)
    requires h > 0.0
    ensures LinkIndex(mouseY, top, h) == -1 <==> (mouseY == top + h || mouseY == top + 2.0 * h)
    ensures LinkIndex(mouseY, top, h) == 0 <==> mouseY < top + h
    ensures LinkIndex(mouseY, top, h) == 1 <==> top + h < mouseY < top + 2.0 * h
    ensures LinkIndex(mouseY, top, h) == 2 <==> mouseY > top + 2.0 * h
  {
  }

  /** The distance used for the hovered link: the measured distance from the
      mouse to that link's centre, and 0 over no link. */
  function DistanceToLink(index: int, distances: seq<real>): (d: real)
    requires |distances| == LinkCount
    ensures index == -1 ==> d == 0.0
    ensures 0 <= index < LinkCount ==> d == distances[index]
  {
    if index != -1 && 0 <= index < |distances| then distances[index] else 0.0
  }

  /** An arrow's angle outside (-100, 100) degrees rotates it. */
  predicate Rotates(angle: real)
  {
    angle < -100.0 || angle > 100.0
  }

  /** The opacity the first pass gives arrow `j`. */
  function FirstOpacity(j: int, index: int, distance: real): (o: string)
    ensures o == "0" || o == "1"
    ensures o == "1" <==> j == index && distance >= 100.0
  {
    if j != index || distance < 100.0 then "0" else "1"
  }

  /** The opacity arrow `j` ends with once the rotation rule has run. */
  function ArrowOpacity(j: int, index: int, distance: real, angle: real): (o: string)
    ensures o == "0" || o == "1"
    ensures o == "1" <==> j == index && distance >= 100.0 && (index == -1 || Rotates(angle))
    ensures j != index ==> o == FirstOpacity(j, index, distance)
  {
    if index != -1 && j == index && !Rotates(angle) then "0" else FirstOpacity(j, index, distance)
  }

  /** Only the hovered arrow can show, and only when the mouse is at least
      100 pixels from the link and at an angle that rotates the arrow. */
  lemma VisibleArrow(j: int, index: int, distance: real, angle: real)
    requires 0 <= j < LinkCount
    ensures ArrowOpacity(j, index, distance, angle) == "1" <==>
              (j == index && distance >= 100.0 && Rotates(angle))
    ensures ArrowOpacity(j, index, distance, angle) == "0" || ArrowOpacity(j, index, distance, angle) == "1"
  {
  }

  /** `calcLinkScale`: `Math.min(Math.max(800 / (d - 80), 2.5), 100)`. At
      `d = 80` the quotient is +Infinity and the result 100. */
  function LinkScale(distance: real): (s: real)
    ensures 2.5 <= s <= 100.0
    ensures distance <= 80.0 ==> s == (if distance == 80.0 then 100.0 else 2.5)
  {
    if distance == 80.0 then 100.0
    else Min(Max(800.0 / (distance - 80.0), 2.5), 100.0)
  }

  /** The filter scale of link `j`: the link scale for the hovered link and
      the default template's otherwise, so a hovered link is never displaced
      less than the others. */
  function FilterScale(j: int, mouseLinkIndex: int, distance: real): (s: real)
    ensures j != mouseLinkIndex ==> s == DefaultTemplate.scale
    ensures j == mouseLinkIndex ==> s == LinkScale(distance)
    ensures s >= DefaultTemplate.scale
  {
    if mouseLinkIndex == j then LinkScale(distance) else DefaultTemplate.scale
  }

  /** The three link elements and their arrows as the handler leaves them,
      and the two pieces of state it sets. */
  class HeroLinks {
    const arrowOpacity: array<string>
    const arrowRotation: array<real>
    const underlined: array<bool>
    var mouseLinkIndex: int
    var mouseDistanceFromLink: real

    predicate Valid()
      reads this
    {
      arrowOpacity.Length == LinkCount && arrowRotation.Length == LinkCount && underlined.Length == LinkCount &&
      arrowOpacity != underlined as object && arrowOpacity != arrowRotation as object &&
      underlined as object != arrowRotation
    }

    constructor ()
      ensures Valid() && mouseLinkIndex == -1 && mouseDistanceFromLink == 0.0
      ensures fresh(arrowOpacity) && fresh(arrowRotation) && fresh(underlined)
    {
      arrowOpacity := new string[LinkCount](_ => "");
      arrowRotation := new real[LinkCount](_ => 0.0);
      underlined := new bool[LinkCount](_ => false);
      mouseLinkIndex := -1;
      mouseDistanceFromLink := 0.0;
    }

    /** `updateMouseInteraction` for the mouse at height `mouseY`, with
        the links' box starting at `top` of height `height`, the measured
        distance from the mouse to each link's centre and the angle from the
        hovered link's arrow to the mouse. */
    method UpdateMouseInteraction(mouseY: real, top: real, height: real, distances: seq<real>, angle: real)
      requires Valid() && |distances| == LinkCount
      modifies this, arrowOpacity, arrowRotation, underlined
      ensures Valid()
      ensures mouseLinkIndex == LinkIndex(mouseY, top, height / LinkCount as real)
      ensures mouseDistanceFromLink == DistanceToLink(mouseLinkIndex, distances)
      ensures forall j :: 0 <= j < LinkCount ==>
                arrowOpacity[j] == ArrowOpacity(j, mouseLinkIndex, mouseDistanceFromLink, angle)
      ensures forall j :: 0 <= j < LinkCount ==> (underlined[j] <==> j == mouseLinkIndex)
      ensures forall j :: 0 <= j < LinkCount ==>
                arrowRotation[j] == if j == mouseLinkIndex && Rotates(angle) then angle else old(arrowRotation[j])
    {
      var linkHeight := height / LinkCount as real;
      var index := LinkIndex(mouseY, top, linkHeight);
      var distance := DistanceToLink(index, distances);

      var i := 0;
      while i < arrowOpacity.Length
        invariant 0 <= i <= arrowOpacity.Length
        invariant forall j :: 0 <= j < i ==> arrowOpacity[j] == FirstOpacity(j, index, distance)
        invariant arrowRotation[..] == old(arrowRotation[..])
      {
        arrowOpacity[i] := if i != index || distance < 100.0 then "0" else "1";
        i := i + 1;
      }

      i := 0;
      while i < underlined.Length
        invariant 0 <= i <= underlined.Length
        invariant forall j :: 0 <= j < i ==> (underlined[j] <==> j == index)
        invariant forall j :: 0 <= j < arrowOpacity.Length ==> arrowOpacity[j] == FirstOpacity(j, index, distance)
        invariant arrowRotation[..] == old(arrowRotation[..])
      {
        underlined[i] := index == i;
        i := i + 1;
      }

      if index != -1 {
        if Rotates(angle) {
          arrowRotation[index] := angle;
        } else {
          arrowOpacity[index] := "0";
        }
      }

      mouseLinkIndex := index;
      mouseDistanceFromLink := distance;
    }
  }
}
