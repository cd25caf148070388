# Subscription store of the Kill Bill subscription engine, in Dafny

This project models the persistence core of Kill Bill's subscription engine,
`DefaultSubscriptionDao`. It records each subscription's life as an
effective-dated event log: CREATE, CHANGE, CANCEL, UNCANCEL, TRANSFER,
PHASE, EXPIRED, BCD and quantity updates. Alongside the log it keeps the
subscription and bundle tables. Every write also issues side effects in the
same transaction, and these are modelled as an outbox:

- bus posts for requested changes;
- bus posts for changes that are already effective;
- future notifications, scheduled for an event's effective date.

Modules:

- `Events`: the event, subscription and bundle records. It also holds the
  classification of events: genesis (CREATE or TRANSFER), undo markers
  (UNCANCEL and UNDO_CHANGE), and which events a deactivation touches.
- `Collaborators`: the catalog, and the replay of an event list into
  subscription state. Both are values of function type supplied by the
  caller, so every property holds for any catalog and any replay.
- `Grouping`: the grouping of events by subscription and of subscriptions
  by bundle, as a method with a loop proved against its specification.
- `DryRun`: the overlay of hypothetical dry-run events on a real event list.
- `AddOnCascade`: the assembly of a bundle's subscriptions, base
  subscription first. An add-on is given a synthetic future cancel when
  its base is cancelled, or when the base changes to a plan that no longer
  allows or already includes the add-on.
- `EventLog`: the rules over the event table: date-windowed queries of
  active rows, deactivation, the posts issued for initial events, and the
  renaming of bundle keys.
- `Transitions`: the whole store as one value, `Tables`. For every
  transactional operation it gives a function computing the new tables,
  and lemmas stating what that operation promises.
- `SubscriptionStore`: the class `SubscriptionDao`. Its sequence fields are
  updated in place by methods, and each method is proved to produce exactly
  the tables the matching `Transitions` function describes.

Rows are kept in table order, and a stored event's total ordering is its
record number. Query windows follow the SQL the store relies on: "future"
means strictly after a date, "future or present" means at or after it. A
"like-key" bundle lookup matches the key itself and every key that ends
with `:` followed by the key. Every renamed key
(`kb<prefix>-<bundle number>:<key>`) is of that form.

A transfer releases the source key under the `tsf` prefix before it looks
for a destination bundle with that key on the destination account. No bundle
with that exact key is left by then, so the "bundle already exists" guard
in the transfer-data step never fires. `Transitions.TransferAlwaysWritesBundle`
states this.

## Model

| member | source | states |
|---|---|---|
| Events.FilterBaseEventsCorrect | subscription/src/main/java/org/killbill/billing/subscription/engine/dao/DefaultSubscriptionDao.java:711-716 | an event is kept exactly when it is in the input and is not an UNCANCEL or UNDO_CHANGE marker; the result is never longer than the input |
| Events.FilterBaseEventsIdempotent | subscription/src/main/java/org/killbill/billing/subscription/engine/dao/DefaultSubscriptionDao.java:711-716 | a list without undo markers comes back unchanged, so filtering twice equals filtering once |
| Events.DeactivateIds | subscription/src/main/java/org/killbill/billing/subscription/engine/dao/DefaultSubscriptionDao.java:803-808 | the table keeps its length; a row whose id is listed becomes inactive and changes in nothing else, and every other row is unchanged |
| Events.DeactivateIdsUnion | subscription/src/main/java/org/killbill/billing/subscription/engine/dao/DefaultSubscriptionDao.java:803-808 | deactivating one set of ids and then another equals deactivating their union |
| Grouping.GroupBy | subscription/src/main/java/org/killbill/billing/subscription/engine/dao/DefaultSubscriptionDao.java:455-462 | the map built by the loop equals the reference grouping, and no group is empty |
| Grouping.GroupSubscriptionsByBundle | subscription/src/main/java/org/killbill/billing/subscription/engine/dao/DefaultSubscriptionDao.java:455-462 | the keys are exactly the bundle ids present; each group is non-empty and holds exactly the subscriptions of that bundle |
| Grouping.GroupEventsBySubscription | subscription/src/main/java/org/killbill/billing/subscription/engine/dao/DefaultSubscriptionDao.java:423-426 | the keys are exactly the subscription ids present; each group is non-empty and holds exactly that subscription's events |
| DryRun.KeptMembers | subscription/src/main/java/org/killbill/billing/subscription/engine/dao/DefaultSubscriptionDao.java:935-946 | a real event survives a dry-run event iff it is not later than it and is not a same-date genesis event replaced by a dry-run CHANGE |
| DryRun.MergeOneCorrect | subscription/src/main/java/org/killbill/billing/subscription/engine/dao/DefaultSubscriptionDao.java:928-972 | after one dry-run event: all earlier entries are real events not later than it, and every such event is kept; the dry-run event comes last, turned into a CREATE when it is a CHANGE on the genesis date; its total ordering is one more than its predecessor's |
| DryRun.MergeAllOtherSubscriptions | subscription/src/main/java/org/killbill/billing/subscription/engine/dao/DefaultSubscriptionDao.java:928-932 | dry-run events of other subscriptions leave the list unchanged |
| DryRun.MergeAllLastDryRun | subscription/src/main/java/org/killbill/billing/subscription/engine/dao/DefaultSubscriptionDao.java:924-974 | when the last dry-run event is this subscription's, the merged list is non-empty, nothing in it is later than that event, and it ends on that event's date |
| DryRun.MergeDryRunEvents | subscription/src/main/java/org/killbill/billing/subscription/engine/dao/DefaultSubscriptionDao.java:924-974 | the in-place loop computes the fold of the single-event merge over all dry-run events |
| AddOnCascade.ScanBaseCorrect | subscription/src/main/java/org/killbill/billing/subscription/engine/dao/DefaultSubscriptionDao.java:862-874 | the scan holds the first active CANCEL of a base subscription and collects exactly the active CHANGEs before it |
| AddOnCascade.ScanBaseEvents | subscription/src/main/java/org/killbill/billing/subscription/engine/dao/DefaultSubscriptionDao.java:863-873 | the loop with its early exit computes the scan |
| AddOnCascade.EarliestIsFirstMinimum | subscription/src/main/java/org/killbill/billing/subscription/engine/dao/DefaultSubscriptionDao.java:883-898 | the trigger chosen is absent iff there are no candidates; otherwise it is the first candidate with the smallest effective date (a later one wins only when strictly earlier) |
| AddOnCascade.PickTrigger | subscription/src/main/java/org/killbill/billing/subscription/engine/dao/DefaultSubscriptionDao.java:883-898 | the loop over the base changes picks the cascade trigger |
| AddOnCascade.AddOnEventsCorrect | subscription/src/main/java/org/killbill/billing/subscription/engine/dao/DefaultSubscriptionDao.java:875-913 | an add-on without a current plan or with a future end date keeps its events; otherwise it gets exactly one synthetic, not-on-disk cancel, dated by the first earliest qualifying trigger, or nothing when no trigger qualifies |
| AddOnCascade.BaseFirstMembers | subscription/src/main/java/org/killbill/billing/subscription/engine/dao/DefaultSubscriptionDao.java:847-848 | the ordering is a permutation of the input with every BASE subscription before every other one |
| AddOnCascade.SortBaseFirst | subscription/src/main/java/org/killbill/billing/subscription/engine/dao/DefaultSubscriptionDao.java:847-848 | the loop computes the BASE-first ordering |
| AddOnCascade.StepOne | subscription/src/main/java/org/killbill/billing/subscription/engine/dao/DefaultSubscriptionDao.java:861-918 | one subscription is rebuilt and the base triggers are updated as the per-category step says |
| AddOnCascade.AssembleShape | subscription/src/main/java/org/killbill/billing/subscription/engine/dao/DefaultSubscriptionDao.java:853-919 | one result per subscription, in order; each carries its dry-run-merged events, plus, for an add-on only, one trailing synthetic cancel |
| AddOnCascade.AddOnsSeeAllBases | subscription/src/main/java/org/killbill/billing/subscription/engine/dao/DefaultSubscriptionDao.java:847-919 | in the BASE-first assembly every subscription after the BASE ones is rebuilt against the triggers scanned from all BASE subscriptions: an ADD_ON gets the cascade of those triggers, any other keeps its merged events |
| AddOnCascade.BuildBundleSubscriptions | subscription/src/main/java/org/killbill/billing/subscription/engine/dao/DefaultSubscriptionDao.java:838-922 | the loop over the BASE-first ordering produces the assembly |
| EventLog.ActiveRowsMembers | subscription/src/main/java/org/killbill/billing/subscription/engine/dao/DefaultSubscriptionDao.java:787 | a date-windowed query returns exactly the active rows of that subscription inside the window |
| EventLog.FirstOfIsFirst | subscription/src/main/java/org/killbill/billing/subscription/engine/dao/DefaultSubscriptionDao.java:660-662 | the first of the sorted active events belongs to them and precedes every other one |
| EventLog.UnactivateEffect | subscription/src/main/java/org/killbill/billing/subscription/engine/dao/DefaultSubscriptionDao.java:761-772 | deactivating the selected rows keeps the table length; it leaves genesis events, unselected rows and (when excluded) BCD and quantity updates untouched, and deactivates every other selected row |
| EventLog.InitialPostsCounter | subscription/src/main/java/org/killbill/billing/subscription/engine/dao/DefaultSubscriptionDao.java:547-548 | the effective-post counter advances by exactly the number of already-effective bus-typed initial events |
| EventLog.GroupedInitialPosts | subscription/src/main/java/org/killbill/billing/subscription/engine/dao/DefaultSubscriptionDao.java:544-552 | with grouping, initial events send only sequence id 0 and at most one effective post, and only while the counter is still 0 |
| EventLog.ChangePlanInputsShape | subscription/src/main/java/org/killbill/billing/subscription/engine/dao/DefaultSubscriptionDao.java:667-689 | the inputs keep their length and tail; the first input becomes genesis iff the change falls on the first event's date, and it then takes that event's type |
| EventLog.UndoTargetsMembers | subscription/src/main/java/org/killbill/billing/subscription/engine/dao/DefaultSubscriptionDao.java:620-626 | the undo targets are exactly the future active events that are the targeted API operation or a PHASE |
| EventLog.RenamedKeyReleasesKey | subscription/src/main/java/org/killbill/billing/subscription/engine/dao/DefaultSubscriptionDao.java:339-347 | a renamed key differs from the key it releases, and a like-key lookup still finds it |
| EventLog.RenameBundles | subscription/src/main/java/org/killbill/billing/subscription/engine/dao/DefaultSubscriptionDao.java:339-347 | only the bundles holding exactly the key change, and only in their key, which becomes the prefixed renamed key |
| EventLog.RenameBundlesCorrect | subscription/src/main/java/org/killbill/billing/subscription/engine/dao/DefaultSubscriptionDao.java:339-347 | after the rename no bundle carries the key, and ids, accounts and created dates are unchanged |
| EventLog.RenameBundlesIdempotent | subscription/src/main/java/org/killbill/billing/subscription/engine/dao/DefaultSubscriptionDao.java:339-347 | renaming a second time changes nothing |
| EventLog.NonAddOnsOfMembers | subscription/src/main/java/org/killbill/billing/subscription/engine/dao/DefaultSubscriptionDao.java:240-251 | the collected subscriptions are exactly the non-add-on subscriptions of a listed bundle |
| Transitions.AfterCancelEffect | subscription/src/main/java/org/killbill/billing/subscription/engine/dao/DefaultSubscriptionDao.java:733-749 | a cancel adds exactly its own event id, keeps the event table well formed, and leaves the subscription and bundle tables alone |
| Transitions.CancelClearsFuture | subscription/src/main/java/org/killbill/billing/subscription/engine/dao/DefaultSubscriptionDao.java:733-749 | after a cancel, the only active events of the subscription at or after the cancel date are genesis events and the stored cancel |
| Transitions.NextPhaseLeavesOnePending | subscription/src/main/java/org/killbill/billing/subscription/engine/dao/DefaultSubscriptionDao.java:479-499 | after recording the next phase, the subscription has exactly one future active PHASE event when the new event is a PHASE, and none when it is an expiry |
| Transitions.MatchingActiveAfterDeactivation | subscription/src/main/java/org/killbill/billing/subscription/engine/dao/DefaultSubscriptionDao.java:774-801 | cancelling the single pending future PHASE event leaves none active |
| Transitions.UndoEffect | subscription/src/main/java/org/killbill/billing/subscription/engine/dao/DefaultSubscriptionDao.java:611-646 | an undo deactivates exactly the targets; it appends the inputs only when there was a target; it never touches genesis events; it changes nothing at all iff there is no target |
| Transitions.ChangePlanGenesis | subscription/src/main/java/org/killbill/billing/subscription/engine/dao/DefaultSubscriptionDao.java:667-689 | a change on the start date deactivates the original genesis event and writes a genesis of the same type first; any other change keeps it and writes the CHANGE first |
| Transitions.ChangePlanClearsFuture | subscription/src/main/java/org/killbill/billing/subscription/engine/dao/DefaultSubscriptionDao.java:660-691 | every active event of the subscription at or after the change date is deactivated unless it is a genesis, BCD or quantity event (the filter runs with `false`); every other existing row, apart from the retired first event, is left exactly as it was |
| Transitions.ChangePlanRequested | subscription/src/main/java/org/killbill/billing/subscription/engine/dao/DefaultSubscriptionDao.java:693-702 | the outbox is extended, never rewritten; the change issues exactly one requested post, the CHANGE for the last input event, and issues it last |
| Transitions.GroupedCreateRun | subscription/src/main/java/org/killbill/billing/subscription/engine/dao/DefaultSubscriptionDao.java:529-561 | with grouping, a whole creation batch appends at most one effective post and at most one requested post, each with sequence id 0 |
| Transitions.CreateRunRows | subscription/src/main/java/org/killbill/billing/subscription/engine/dao/DefaultSubscriptionDao.java:536-540 | a creation batch appends its subscriptions in order and leaves the bundles alone |
| Transitions.CreateRunEvents | subscription/src/main/java/org/killbill/billing/subscription/engine/dao/DefaultSubscriptionDao.java:542-545 | a creation batch appends every initial event of every subscription, in order, numbered from the old table size |
| Transitions.CreateBundleReuse | subscription/src/main/java/org/killbill/billing/subscription/engine/dao/DefaultSubscriptionDao.java:262-296 | an empty same-account bundle with exactly the key is returned and nothing is written |
| Transitions.CreateBundleConflict | subscription/src/main/java/org/killbill/billing/subscription/engine/dao/DefaultSubscriptionDao.java:298-325 | without a reusable bundle, creation fails with "active bundle key exists" iff some non-add-on subscription of a like-key bundle is not CANCELLED |
| Transitions.CreateBundleNew | subscription/src/main/java/org/killbill/billing/subscription/engine/dao/DefaultSubscriptionDao.java:298-333 | a successful new bundle is appended last and keeps the first like-key bundle's created date as its original date; with renaming, no older bundle keeps the key; without it, older bundles are unchanged |
| Transitions.FirstExactBundleFound | subscription/src/main/java/org/killbill/billing/subscription/engine/dao/DefaultSubscriptionDao.java:266-271 | the lookup finds a listed bundle with this account and exactly this key, and finds none iff no such bundle exists |
| Transitions.NonAddOnIdsForKey | subscription/src/main/java/org/killbill/billing/subscription/engine/dao/DefaultSubscriptionDao.java:233-254 | the subscriptions reported for a key are exactly the non-add-on subscriptions of a bundle whose key is like it, and each one's id is in the result |
| Transitions.TransferCancelsKeepBundles | subscription/src/main/java/org/killbill/billing/subscription/engine/dao/DefaultSubscriptionDao.java:981-984 | the cancels of a transfer leave the bundle table alone |
| Transitions.TransferAlwaysWritesBundle | subscription/src/main/java/org/killbill/billing/subscription/engine/dao/DefaultSubscriptionDao.java:977-994 | a transfer always appends the destination bundle last, and no older bundle carries its key |
| SubscriptionStore.SubscriptionDao.CreateEvent | subscription/src/main/java/org/killbill/billing/subscription/engine/dao/DefaultSubscriptionDao.java:484 | one event is appended, numbered by its record position, and the table stays well formed |
| SubscriptionStore.SubscriptionDao.Deactivate | subscription/src/main/java/org/killbill/billing/subscription/engine/dao/DefaultSubscriptionDao.java:803-808 | one row is deactivated by id; the ids and the well-formedness of the table are kept |
| SubscriptionStore.SubscriptionDao.UnactivateEvent | subscription/src/main/java/org/killbill/billing/subscription/engine/dao/DefaultSubscriptionDao.java:803-808 | an absent event changes nothing; a present one is deactivated |
| SubscriptionStore.SubscriptionDao.RecordFuture | subscription/src/main/java/org/killbill/billing/subscription/engine/dao/DefaultSubscriptionDao.java:1129-1140 | one notification is scheduled for the event's date |
| SubscriptionStore.SubscriptionDao.NotifyRequested | subscription/src/main/java/org/killbill/billing/subscription/engine/dao/DefaultSubscriptionDao.java:1120-1127 | one requested post is issued |
| SubscriptionStore.SubscriptionDao.NotifyEffective | subscription/src/main/java/org/killbill/billing/subscription/engine/dao/DefaultSubscriptionDao.java:1102-1118 | an effective post is issued only when the event yields a transition |
| SubscriptionStore.SubscriptionDao.RecordBusOrFuture | subscription/src/main/java/org/killbill/billing/subscription/engine/dao/DefaultSubscriptionDao.java:1071-1081 | an effective event goes to the bus; a future one is scheduled |
| SubscriptionStore.SubscriptionDao.UnactivateFutureEvents | subscription/src/main/java/org/killbill/billing/subscription/engine/dao/DefaultSubscriptionDao.java:761-772 | the loop deactivates exactly the selected ids, the effect being the one UnactivateEffect states |
| SubscriptionStore.SubscriptionDao.FindFutureEvent | subscription/src/main/java/org/killbill/billing/subscription/engine/dao/DefaultSubscriptionDao.java:780-801 | the result is an error iff two or more future active events match; none when none match; the match itself when exactly one does |
| SubscriptionStore.SubscriptionDao.CreateNextPhaseOrExpiredEvent | subscription/src/main/java/org/killbill/billing/subscription/engine/dao/DefaultSubscriptionDao.java:479-499 | on the multiple-future-PHASE error nothing changes; otherwise the new tables are those of AfterNextPhase |
| SubscriptionStore.SubscriptionDao.RecordNextPhase | subscription/src/main/java/org/killbill/billing/subscription/engine/dao/DefaultSubscriptionDao.java:484-495 | the next event is appended and scheduled, then the PHASE or EXPIRED requested post and the ready event's effective notice are issued, in that order |
| SubscriptionStore.SubscriptionDao.CancelOrExpireSubscription | subscription/src/main/java/org/killbill/billing/subscription/engine/dao/DefaultSubscriptionDao.java:733-749 | the new tables are those of AfterCancel, with exactly one new event id |
| SubscriptionStore.SubscriptionDao.CancelOrExpireSubscriptions | subscription/src/main/java/org/killbill/billing/subscription/engine/dao/DefaultSubscriptionDao.java:593-599 | cancels the i-th subscription with the i-th event, sequence ids counting down to 0 |
| SubscriptionStore.SubscriptionDao.CancelSubscriptions | subscription/src/main/java/org/killbill/billing/subscription/engine/dao/DefaultSubscriptionDao.java:586-591 | the whole batch of cancels in one transaction |
| SubscriptionStore.SubscriptionDao.CancelOrExpireSubscriptionOnNotification | subscription/src/main/java/org/killbill/billing/subscription/engine/dao/DefaultSubscriptionDao.java:567-574 | the batch of cancels, then the effective post of the triggering event with sequence id equal to the batch size, even for an empty batch |
| SubscriptionStore.SubscriptionDao.NotifyOnBasePlanEvent | subscription/src/main/java/org/killbill/billing/subscription/engine/dao/DefaultSubscriptionDao.java:577-583 | only the effective post of the base plan event, with sequence id 0 |
| SubscriptionStore.SubscriptionDao.CreateAndScheduleEvents | subscription/src/main/java/org/killbill/billing/subscription/engine/dao/DefaultSubscriptionDao.java:634-640 | every input is appended in order and scheduled for its date |
| SubscriptionStore.SubscriptionDao.UndoOperation | subscription/src/main/java/org/killbill/billing/subscription/engine/dao/DefaultSubscriptionDao.java:611-646 | the new tables are those of AfterUndo |
| SubscriptionStore.SubscriptionDao.CollectUndoTargets | subscription/src/main/java/org/killbill/billing/subscription/engine/dao/DefaultSubscriptionDao.java:620-626 | the loop keeps exactly the targeted API operations and the PHASE events, in row order |
| SubscriptionStore.SubscriptionDao.DeactivateTargets | subscription/src/main/java/org/killbill/billing/subscription/engine/dao/DefaultSubscriptionDao.java:628-631 | every target is deactivated and nothing else changes |
| SubscriptionStore.SubscriptionDao.UncancelSubscription | subscription/src/main/java/org/killbill/billing/subscription/engine/dao/DefaultSubscriptionDao.java:602-605 | an undo targeting CANCEL, reported as UNCANCEL |
| SubscriptionStore.SubscriptionDao.UndoChangePlan | subscription/src/main/java/org/killbill/billing/subscription/engine/dao/DefaultSubscriptionDao.java:607-609 | an undo targeting CHANGE, reported as UNDO_CHANGE |
| SubscriptionStore.SubscriptionDao.WriteChangeEvent | subscription/src/main/java/org/killbill/billing/subscription/engine/dao/DefaultSubscriptionDao.java:694-697 | one written event is appended and posted on the bus when already effective, scheduled otherwise |
| SubscriptionStore.SubscriptionDao.WriteChangeEvents | subscription/src/main/java/org/killbill/billing/subscription/engine/dao/DefaultSubscriptionDao.java:693-698 | every written event is appended in order, and each is posted to the bus or scheduled |
| SubscriptionStore.SubscriptionDao.ChangePlan | subscription/src/main/java/org/killbill/billing/subscription/engine/dao/DefaultSubscriptionDao.java:649-709 | the new tables are those of AfterChangePlan: genesis rewrite, deactivation, writes, requested post, then the add-on cancels |
| SubscriptionStore.SubscriptionDao.WriteInitialEvent | subscription/src/main/java/org/killbill/billing/subscription/engine/dao/DefaultSubscriptionDao.java:544-552 | one initial event is appended; its posts and the effective-post counter are those of the initial-event rule for a single event |
| SubscriptionStore.SubscriptionDao.WriteInitialEvents | subscription/src/main/java/org/killbill/billing/subscription/engine/dao/DefaultSubscriptionDao.java:544-552 | the initial events are appended in order; their posts and the advanced counter are those of InitialEventPosts |
| SubscriptionStore.SubscriptionDao.CreateSubscription | subscription/src/main/java/org/killbill/billing/subscription/engine/dao/DefaultSubscriptionDao.java:537-559 | the new tables and both counters are those of CreateOne |
| SubscriptionStore.SubscriptionDao.CreateGroup | subscription/src/main/java/org/killbill/billing/subscription/engine/dao/DefaultSubscriptionDao.java:537-560 | one bundle's subscriptions are created in order, continuing the batch's run of tables and counters |
| SubscriptionStore.SubscriptionDao.CreateSubscriptionsWithAddOns | subscription/src/main/java/org/killbill/billing/subscription/engine/dao/DefaultSubscriptionDao.java:525-564 | the new tables are those of CreateRun over the flattened batch, and the returned events are exactly the appended ones |
| SubscriptionStore.SubscriptionDao.RenameBundleExternalKey | subscription/src/main/java/org/killbill/billing/subscription/engine/dao/DefaultSubscriptionDao.java:339-347 | only the bundle table changes, as RenameBundles says |
| SubscriptionStore.SubscriptionDao.GetNonAOSubscriptionIdsForKey | subscription/src/main/java/org/killbill/billing/subscription/engine/dao/DefaultSubscriptionDao.java:233-254 | the ids, in bundle order, of the non-add-on subscriptions of every like-key bundle |
| SubscriptionStore.SubscriptionDao.CheckCancelled | subscription/src/main/java/org/killbill/billing/subscription/engine/dao/DefaultSubscriptionDao.java:312-322 | a subscription that is not CANCELLED stops the scan with the tables as they were, apart from the bundles restored by rollback; a CANCELLED one extends the scanned prefix |
| SubscriptionStore.SubscriptionDao.ScanBundleSubscriptions | subscription/src/main/java/org/killbill/billing/subscription/engine/dao/DefaultSubscriptionDao.java:309-324 | stops at a subscription that is not CANCELLED; otherwise every one seen is CANCELLED and the key is renamed when asked |
| SubscriptionStore.SubscriptionDao.CreateSubscriptionBundle | subscription/src/main/java/org/killbill/billing/subscription/engine/dao/DefaultSubscriptionDao.java:285-335 | on error nothing changes, because the transaction rolls back; otherwise the result and the new tables are those of AfterCreateBundle |
| SubscriptionStore.SubscriptionDao.TransferBundleData | subscription/src/main/java/org/killbill/billing/subscription/engine/dao/DefaultSubscriptionDao.java:1142-1173 | the new tables are those of AfterTransferData |
| SubscriptionStore.SubscriptionDao.TransferSubscription | subscription/src/main/java/org/killbill/billing/subscription/engine/dao/DefaultSubscriptionDao.java:1158-1169 | one moved subscription: its initial events stored and scheduled, its row, and a TRANSFER requested post, extending the run by one |
| SubscriptionStore.SubscriptionDao.TransferBundle | subscription/src/main/java/org/killbill/billing/subscription/engine/dao/DefaultSubscriptionDao.java:977-994 | the new tables are those of AfterTransfer |
| SubscriptionStore.SubscriptionDao.CancelForTransfer | subscription/src/main/java/org/killbill/billing/subscription/engine/dao/DefaultSubscriptionDao.java:981-984 | the source subscriptions are cancelled in order with sequence id 0, as the transfer's cancel step says |

## Left out

- `EventLog.EffectiveNotice`: whether an effective post is sent is a function of the subscription and the event only. On the bus path the source first rebuilds the subscription from its active events on disk (:1089-1096), which may differ after rows were deactivated earlier in the transaction. The direct calls at :497, :572 and :580 skip that rebuild. The model does not distinguish the two.
- `SubscriptionStore.SubscriptionDao.UndoOperation`: when there are targets, the inputs must be non-empty. With no inputs, the source's lookup of the last input would throw; that exception is not modelled. The same holds for `Transitions.AfterUndo`.
- `SubscriptionStore.SubscriptionDao.ChangePlan`: the subscription must have at least one active event (`Transitions.ChangePlanReady`). Without one, taking the first event would throw; that exception is not modelled.
- `SubscriptionStore.SubscriptionDao.TransferBundleData`: every moved subscription must carry at least one initial event. With none, the lookup of the last initial event would throw; that exception is not modelled. The same holds for `Transitions.AfterTransferData`.
- `AddOnCascade.BuildBundleSubscriptions`: every subscription must have an entry in the events map (`HasEvents`). A missing entry would give null events in the source; that case is not modelled. When no map is passed, the source reads each subscription's events from the table itself. The model always takes the map, so the caller supplies what that read would return.
- Relational storage: tables are sequences in record order, and the SQL queries are modelled by the windows stated above. Sorting by effective date and total ordering is taken as given: `FirstOf` picks the earliest row of the active events.
- Account and tenant scoping, record ids, audit columns and the call context are not modelled. Every query sees the whole table.
- Read-only lookups (`getEventById`, `getEventsForSubscription`, `getPendingEventsForSubscription`, `getSubscriptionFromId`, the bundle getters, search and pagination, audit logs) are left out. They add no rule beyond the windows and filters modelled here.
- `updateChargedThroughDates` and `updateBundleExternalKey` are single SQL updates with no rule of the store's own, so they are left out.
- `createChangeEvent` (BCD and quantity changes) is not modelled as its own operation. It is the composition of `CreateEvent`, `NotifyRequested` and `RecordBusOrFuture` with sequence id 0.
- Replaying events into subscription state (`rebuildTransitions`, `getTransitionFromEvent`, the current plan, the future end date, the CANCELLED state) and the catalog's plan lookups belong to other classes. They are caller-supplied functions in `Collaborators`.
- Bus and notification-queue failures (logged or rethrown) and catalog exceptions are not modelled. Every post succeeds.
- A null external key in bundle creation is not modelled; keys are strings.
- Without renaming, bundle creation would violate the unique constraint on the external key; that constraint is not modelled.
- Transaction atomicity is taken as given. Only bundle creation's error path restores the tables explicitly.
- `DryRun.MergeDryRunEvents`: the same-date test reads the real event as an API event whenever the dry-run event is an API CHANGE. Java's operator precedence leaves that cast unguarded, so a non-API real event on that date would throw. The model requires `AllCastSafe` instead of modelling the exception.
- `SubscriptionStore.SubscriptionDao.ChangePlan`: the caller's input list is edited in place when the change falls on the start date; the model passes it by value. The preconditions the source enforces with `checkState` are stated as requirements. So is a first event that carries an API type.
- `SubscriptionStore.SubscriptionDao.CreateSubscriptionsWithAddOns`: it requires every subscription of the batch to have initial events in the map; a missing entry would throw in the source.
- `AddOnCascade.SortBaseFirst`: the subscription comparator is defined elsewhere. It is modelled as a stable BASE-first ordering, which is the only property the cascade relies on.
- Event ids are required to be fresh (`FreshIds`), as the database's primary key on event ids guarantees.
- Dates are integers on one time line; time zones are not modelled.
