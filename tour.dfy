/**
 * The guided tour: a sequence of steps, each pointing at an element of the
 * page, walked forwards and backwards, with a tooltip placed beside the
 * element and kept inside the viewport.
 *
 * The element's rectangle (already shifted by the page's scroll) and the
 * viewport's size are measured from the page; here they are parameters.
 * Closing the tour is the owner's `onClose`, modelled as the tour becoming
 * closed.
 */
module Tour {
  import opened Common

  datatype Placement = Top | Bottom | Left | Right

  datatype TourStep = TourStep(target: string, content: string, placement: Placement)

  /** The target's rectangle in page coordinates. */
  datatype Rect = Rect(top: real, left: real, width: real, height: real, right: real, bottom: real)

  const Padding: real := 20.0
  const TooltipWidth: real := 300.0
  const TooltipHeight: real := 150.0
  /** What the clamp leaves between the tooltip and the viewport's edge. */
  const Margin: real := 10.0

  /** Where the tooltip goes before clamping, as (top, left). */
  function BasePosition(placement: Placement, target: Rect): (p: (real, real))
    ensures placement == Top ==> p.0 + TooltipHeight + Padding == target.top
    ensures placement == Bottom ==> p.0 == target.bottom + Padding
    ensures placement == Left ==> p.1 + TooltipWidth + Padding == target.left
    ensures placement == Right ==> p.1 == target.right + Padding
    // above or below, centred horizontally on the target
    ensures placement in {Top, Bottom} ==> p.1 + TooltipWidth / 2.0 == target.left + target.width / 2.0
    // beside it, centred vertically on the target
    ensures placement in {Left, Right} ==> p.0 + TooltipHeight / 2.0 == target.top + target.height / 2.0
  {
    match placement
    case Top => (target.top - TooltipHeight - Padding, target.left + (target.width - TooltipWidth) / 2.0)
    case Bottom => (target.bottom + Padding, target.left + (target.width - TooltipWidth) / 2.0)
    case Left => (target.top + (target.height - TooltipHeight) / 2.0, target.left - TooltipWidth - Padding)
    case Right => (target.top + (target.height - TooltipHeight) / 2.0, target.right + Padding)
  }

  /**
   * The clamp on one axis: a negative start moves to the margin, and then a
   * far edge past the viewport pulls the start back to leave the margin at
   * the far side. The far edge always ends inside, a start that already fits
   * stays, and the start is on screen whenever the viewport holds the
   * tooltip and a margin.
   */
  function Clamp(start: real, size: real, extent: real): (r: real)
    ensures r + size <= extent
    ensures 0.0 <= start && start + size <= extent ==> r == start
    ensures extent >= size + Margin ==> r >= 0.0
  {
    var s := if start < 0.0 then Margin else start;
    if s + size > extent then extent - size - Margin else s
  }

  /**
   * In a viewport narrower than the tooltip and its margin, a tooltip that
   * did not fit is moved to a negative start, off screen.
   */
  lemma NarrowViewportStartsOffScreen(start: real, size: real, extent: real)
    requires extent < size + Margin
    requires start < 0.0 || start + size > extent
    ensures Clamp(start, size, extent) == extent - size - Margin
    ensures Clamp(start, size, extent) < 0.0
  {
  }

  /** `getTooltipPosition`: the placement's position, then the four clamping steps in order. */
  method TooltipPosition(placement: Placement, target: Rect, viewportWidth: real, viewportHeight: real)
    returns (top: real, left: real)
    ensures left == Clamp(BasePosition(placement, target).1, TooltipWidth, viewportWidth)
    ensures top == Clamp(BasePosition(placement, target).0, TooltipHeight, viewportHeight)
  {
    top := 0.0;
    left := 0.0;
    match placement {
      case Top =>
        top := target.top - TooltipHeight - Padding;
        left := target.left + (target.width - TooltipWidth) / 2.0;
      case Bottom =>
        top := target.bottom + Padding;
        left := target.left + (target.width - TooltipWidth) / 2.0;
      case Left =>
        top := target.top + (target.height - TooltipHeight) / 2.0;
        left := target.left - TooltipWidth - Padding;
      case Right =>
        top := target.top + (target.height - TooltipHeight) / 2.0;
        left := target.right + Padding;
    }
    if left < 0.0 {
      left := 10.0;
    }
    if left + TooltipWidth > viewportWidth {
      left := viewportWidth - TooltipWidth - 10.0;
    }
    if top < 0.0 {
      top := 10.0;
    }
    if top + TooltipHeight > viewportHeight {
      top := viewportHeight - TooltipHeight - 10.0;
    }
  }

  /** The tooltip as drawn. */
  datatype Tooltip = Tooltip(
    stepNumber: nat, stepCount: nat, content: string,
    prevEnabled: bool, nextCaption: string,
    top: real, left: real)

  const Finish: string := "완료"
  const Next: string := "다음"

  /** The tour's state: its steps, the current one, and whether it is open. */
  class TourState {
    const steps: seq<TourStep>
    var currentStep: nat
    var isOpen: bool

    /** The current step is a step of the tour, or 0 on a tour without steps. */
    predicate StepInRange()
      reads this
    {
      currentStep == 0 || currentStep < |steps|
    }

    constructor (steps: seq<TourStep>, isOpen: bool)
      ensures this.steps == steps && currentStep == 0 && this.isOpen == isOpen
      ensures StepInRange()
    {
      this.steps := steps;
      currentStep := 0;
      this.isOpen := isOpen;
    }

    /** `nextStep`: forwards while a step is left, otherwise the tour closes where it is. */
    method NextStep()
      modifies this
      ensures old(currentStep) < |steps| - 1 ==> currentStep == old(currentStep) + 1 && isOpen == old(isOpen)
      ensures old(currentStep) >= |steps| - 1 ==> currentStep == old(currentStep) && !isOpen
      ensures old(StepInRange()) ==> StepInRange()
    {
      if currentStep < |steps| - 1 {
        currentStep := currentStep + 1;
      } else {
        isOpen := false;
      }
    }

    /** `prevStep`: backwards, except at the first step. */
    method PrevStep()
      modifies this
      ensures old(currentStep) > 0 ==> currentStep == old(currentStep) - 1
      ensures old(currentStep) == 0 ==> currentStep == 0
      ensures isOpen == old(isOpen)
      ensures old(StepInRange()) ==> StepInRange()
    {
      if currentStep > 0 {
        currentStep := currentStep - 1;
      }
    }

    /** `skipTour`: the overlay, the `×` and `건너뛰기` close the tour and keep the step. */
    method SkipTour()
      modifies this
      ensures !isOpen && currentStep == old(currentStep)
    {
      isOpen := false;
    }

    /**
     * What the tour draws: nothing while closed or while its element was not
     * found, otherwise the tooltip of the current step, numbered from 1,
     * whose forward button finishes on the last step.
     */
    method Render(target: Option<Rect>, viewportWidth: real, viewportHeight: real)
      returns (tooltip: Option<Tooltip>)
      requires target.Some? ==> currentStep < |steps|
      ensures tooltip.None? <==> !isOpen || target.None?
      ensures tooltip.Some? ==>
        && tooltip.value.stepNumber == currentStep + 1
        && tooltip.value.stepCount == |steps|
        && 1 <= tooltip.value.stepNumber <= tooltip.value.stepCount
        && tooltip.value.content == steps[currentStep].content
        && (tooltip.value.prevEnabled <==> currentStep > 0)
        && (tooltip.value.nextCaption == Finish <==> currentStep == |steps| - 1)
        && (tooltip.value.nextCaption == Next <==> currentStep < |steps| - 1)
        && tooltip.value.left + TooltipWidth <= viewportWidth
        && tooltip.value.top + TooltipHeight <= viewportHeight
    {
      if !isOpen || target.None? {
        return None;
      }
      var top, left := TooltipPosition(steps[currentStep].placement, target.value, viewportWidth, viewportHeight);
      var caption := if currentStep == |steps| - 1 then Finish else Next;
      tooltip := Some(Tooltip(currentStep + 1, |steps|, steps[currentStep].content,
                              currentStep != 0, caption, top, left));
    }
  }

  /**
   * Walking a tour with steps: `다음` on every step but the last moves on by
   * one, and on the last it closes the tour; `이전` undoes a `다음` that moved.
   */
  method NextThenPrev(tour: TourState)
    requires tour.StepInRange() && tour.currentStep < |tour.steps| - 1
    modifies tour
    ensures tour.currentStep == old(tour.currentStep) && tour.isOpen == old(tour.isOpen)
  {
    tour.NextStep();
    tour.PrevStep();
  }
}
