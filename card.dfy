/**
 * The section card (app/components/SectionCard.tsx): its two booleans
 * `isExpanded` and `showSubsections`, the two click handlers that change
 * them, and the heading click that either opens a link or navigates.
 */
module Card {
  import opened DocumentModel

  /** The card's React state. */
  datatype CardState = CardState(isExpanded: bool, showSubsections: bool)

  /** The clicks that change the card's state. */
  datatype CardEvent =
    | BodyClick    // the top part of the card (`:58`)
    | ToggleClick  // the +/− button (`:172-178`)

  /** Both flags start false (`:24-25`). */
  const InitialCard := CardState(false, false)

  /**
   * The state after one click. The button handler reads the value of
   * `isExpanded` from before the click, so it resets `showSubsections` when
   * the card is being expanded, not when it is being collapsed.
   */
  function Step(st: CardState, e: CardEvent): (r: CardState)
    ensures r.isExpanded == !st.isExpanded
    ensures r.showSubsections ==> st.showSubsections
  {
    match e
    case BodyClick => st.(isExpanded := !st.isExpanded)
    case ToggleClick =>
      CardState(!st.isExpanded, if !st.isExpanded then false else st.showSubsections)
  }

  /** The state after a sequence of clicks. */
  function Run(st: CardState, events: seq<CardEvent>): (r: CardState)
    ensures r.isExpanded == (st.isExpanded != (|events| % 2 == 1))
    decreases |events|
  {
    if events == [] then st else Run(Step(st, events[0]), events[1..])
  }

  /** Each click flips `isExpanded`, whichever part of the card is clicked. */
  lemma StepFlipsExpanded(st: CardState, e: CardEvent)
    ensures Step(st, e).isExpanded == !st.isExpanded
    ensures e.BodyClick? ==> Step(st, e).showSubsections == st.showSubsections
    ensures e.ToggleClick? && !st.isExpanded ==> !Step(st, e).showSubsections
    ensures e.ToggleClick? && st.isExpanded ==> Step(st, e).showSubsections == st.showSubsections
  {
  }

  /** Two clicks on the card body restore the state. */
  lemma BodyClickTwice(st: CardState)
    ensures Step(Step(st, BodyClick), BodyClick) == st
  {
  }

  /** No click ever sets `showSubsections`. */
  lemma {:induction false} SubsectionsStayHidden(st: CardState, events: seq<CardEvent>)
    requires !st.showSubsections
    ensures !Run(st, events).showSubsections
    decreases |events|
  {
    if events != [] {
      SubsectionsStayHidden(Step(st, events[0]), events[1..]);
    }
  }

  /** `showSubsections` is false in every state reachable from the first render. */
  lemma SubsectionsNeverShown(events: seq<CardEvent>)
    ensures !Run(InitialCard, events).showSubsections
  {
    SubsectionsStayHidden(InitialCard, events);
  }

  /** What a click on the heading does. */
  datatype HeadingAction = OpenLink(url: string) | Navigate(section: Section)

  class SectionCard {
    const section: Section
    var isExpanded: bool
    var showSubsections: bool

    /** The card's invariant: the subsection pills are never switched on. */
    ghost predicate Valid()
      reads this
    {
      !showSubsections
    }

    function State(): CardState
      reads this
    {
      CardState(isExpanded, showSubsections)
    }

    constructor (section: Section)
      ensures this.section == section
      ensures Valid() && State() == InitialCard
    {
      this.section := section;
      isExpanded := false;
      showSubsections := false;
    }

    /** `onClick={() => setIsExpanded(!isExpanded)}` on the card body. */
    method ClickBody()
      requires Valid()
      modifies this
      ensures Valid() && State() == Step(old(State()), BodyClick)
    {
      isExpanded := !isExpanded;
    }

    /** The +/− button: toggle, and reset `showSubsections` if the card was collapsed. */
    method ClickToggle()
      requires Valid()
      modifies this
      ensures Valid() && State() == Step(old(State()), ToggleClick)
    {
      var wasExpanded := isExpanded;
      isExpanded := !wasExpanded;
      if !wasExpanded {
        showSubsections := false;
      }
    }

    /**
     * The heading click: a section with a link opens it and is never
     * navigated into; any other section is navigated into, once.
     */
    method ClickHeading() returns (action: HeadingAction)
      ensures HasLink(section) <==> action.OpenLink?
      ensures action.OpenLink? ==> action.url == section.url.value
      ensures action.Navigate? ==> action.section == section
    {
      if section.url.Some? && section.url.value != "" {
        action := OpenLink(section.url.value);
      } else {
        action := Navigate(section);
      }
    }

    /**
     * Whether the subsection pills are rendered (`:117`, `:142`, `:145`):
     * expanded, not compact, with child sections, and `showSubsections`.
     * They never are.
     */
    function PillsShown(compactMode: bool): (shown: bool)
      reads this
      requires Valid()
      ensures !shown
    {
      isExpanded && !compactMode && HasChildSections(section)
        && |GuardedChildSections(section)| > 0 && showSubsections
    }
  }
}
