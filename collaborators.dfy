/** The collaborators the subscription store consults but does not
    implement: the catalog, and the replay of an event list into subscription
    state. Each is a value of function type supplied by the caller, so every
    property proved here holds for any catalog and any replay. */
module Collaborators {
  import opened Events

  datatype Catalog = Catalog(
    /** The product of the plan an event refers to, resolved at the event's
        effective date against the subscription's alignment start date. */
    productOf: (PlanId, Date, Date) -> ProductId,
    /** May an add-on on this plan be bought on top of this base product? */
    isAddonAvailable: (ProductId, PlanId) -> bool,
    /** Is an add-on on this plan already bundled in this base product? */
    isAddonIncluded: (ProductId, PlanId) -> bool)

  datatype Replay = Replay(
    /** The current plan of a subscription rebuilt from these events, if any. */
    currentPlan: (Subscription, seq<Event>) -> Option<PlanId>,
    /** Whether a subscription rebuilt from these events has a future end date. */
    hasFutureEndDate: (Subscription, seq<Event>) -> bool,
    /** Whether a subscription rebuilt from these events is CANCELLED. */
    isCancelled: (Subscription, seq<Event>) -> bool,
    /** Whether the subscription yields a transition for this event, which
        is what an effective-change notification carries. */
    hasTransition: (Subscription, Event) -> bool)
}
