/** The event record of a subscription's effective-dated log, and the pure
    helpers that classify or filter events. */
module Events {

  type EventId = nat
  type SubscriptionId = nat
  type BundleId = nat
  type AccountId = nat
  type PlanId = nat
  type ProductId = nat
  /** Dates and timestamps are instants on an integer time line. */
  type Date = int

  datatype Option<T> = None | Some(value: T)

  /** The user-level kind of an API_USER event. */
  datatype ApiEventType = Create | Change | Cancel | Transfer | Uncancel | UndoChange

  /** The persisted event type. */
  datatype EventType = ApiUser(api: ApiEventType) | Phase | Expired | BcdUpdate | QuantityUpdate

  datatype Event = Event(
    id: EventId,
    subscriptionId: SubscriptionId,
    kind: EventType,
    effectiveDate: Date,
    createdDate: Date,
    totalOrdering: int,
    active: bool,
    fromDisk: bool,
    plan: PlanId)

  datatype Category = Base | AddOn | Standalone

  datatype Subscription = Subscription(
    id: SubscriptionId,
    bundleId: BundleId,
    category: Category,
    alignStartDate: Date)

  datatype Bundle = Bundle(
    id: BundleId,
    accountId: AccountId,
    externalKey: string,
    createdDate: Date,
    originalCreatedDate: Date)

  predicate IsApi(e: Event, t: ApiEventType) {
    e.kind == ApiUser(t)
  }

  /** The genesis event of a timeline: an API CREATE or TRANSFER. */
  predicate IsGenesis(e: Event) {
    IsApi(e, Create) || IsApi(e, Transfer)
  }

  /** True when an event must be hidden from the event list a subscription is
      rebuilt from: UNCANCEL and UNDO_CHANGE markers. */
  predicate IsUndoMarker(e: Event) {
    IsApi(e, Uncancel) || IsApi(e, UndoChange)
  }

  /** Keeps, in order, the events that are not undo markers. */
  function FilterBaseEvents(s: seq<Event>): (r: seq<Event>)
    decreases |s|
  {
    if s == [] then []
    else FilterBaseEvents(s[..|s| - 1]) + (if IsUndoMarker(s[|s| - 1]) then [] else [s[|s| - 1]])
  }

  lemma {:induction false} FilterBaseEventsCorrect(s: seq<Event>)
    ensures forall e :: e in FilterBaseEvents(s) <==> e in s && !IsUndoMarker(e)
    ensures |FilterBaseEvents(s)| <= |s|
    decreases |s|
  {
    if s != [] {
      FilterBaseEventsCorrect(s[..|s| - 1]);
      assert s == s[..|s| - 1] + [s[|s| - 1]];
    }
  }

  /** A filter applied to a list with no undo marker gives back the list. */
  lemma {:induction false} FilterBaseEventsIdempotent(s: seq<Event>)
    requires forall i :: 0 <= i < |s| ==> !IsUndoMarker(s[i])
    ensures FilterBaseEvents(s) == s
    decreases |s|
  {
    if s != [] {
      FilterBaseEventsIdempotent(s[..|s| - 1]);
      assert s == s[..|s| - 1] + [s[|s| - 1]];
    }
  }

  /** The deactivation filter: the genesis event is never deactivated, and a
      BCD or quantity update only when the caller includes them. */
  predicate ShouldDeactivate(e: Event, includingQuantityOrBcdChange: bool) {
    && !IsGenesis(e)
    && (includingQuantityOrBcdChange || (e.kind != BcdUpdate && e.kind != QuantityUpdate))
  }

  lemma ShouldDeactivateCases(e: Event, including: bool)
    ensures IsGenesis(e) ==> !ShouldDeactivate(e, including)
    ensures !IsGenesis(e) && (e.kind == BcdUpdate || e.kind == QuantityUpdate) ==>
              (ShouldDeactivate(e, including) <==> including)
    ensures !IsGenesis(e) && e.kind != BcdUpdate && e.kind != QuantityUpdate ==> ShouldDeactivate(e, including)
  {
  }

  /** Every row whose id is in `ids` becomes inactive; nothing else changes. */
  function DeactivateIds(s: seq<Event>, ids: set<EventId>): (r: seq<Event>)
    ensures |r| == |s|
    ensures forall i :: 0 <= i < |s| && s[i].id !in ids ==> r[i] == s[i]
    ensures forall i :: 0 <= i < |s| && s[i].id in ids ==> !r[i].active && r[i].(active := s[i].active) == s[i]
  {
    seq(|s|, i requires 0 <= i < |s| => if s[i].id in ids then s[i].(active := false) else s[i])
  }

  lemma DeactivateIdsUnion(s: seq<Event>, a: set<EventId>, b: set<EventId>)
    ensures DeactivateIds(DeactivateIds(s, a), b) == DeactivateIds(s, a + b)
  {
  }

  lemma DeactivateIdsEmpty(s: seq<Event>)
    ensures DeactivateIds(s, {}) == s
  {
  }
}
