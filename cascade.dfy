/** Assembly of a bundle's subscriptions, with the add-on cascade: an add-on is
    shown as future-cancelled when its base subscription is cancelled, or
    changes to a plan that no longer allows or already includes it. */
module AddOnCascade {
  import opened Events
  import opened Collaborators
  import DryRun

  predicate ActiveCancel(e: Event) {
    e.active && IsApi(e, Cancel)
  }

  predicate ActiveChange(e: Event) {
    e.active && IsApi(e, Change)
  }

  /** What the base subscriptions seen so far contribute to the cascade. */
  datatype BaseTriggers = BaseTriggers(cancel: Option<Event>, changes: seq<Event>)

  const NoTriggers := BaseTriggers(None, [])

  /** Scan of a base subscription's events: every active CHANGE is collected
      until the first active CANCEL, which is held and ends the scan. */
  function ScanBase(acc: BaseTriggers, events: seq<Event>): BaseTriggers
    decreases |events|
  {
    if events == [] then acc
    else if ActiveCancel(events[0]) then acc.(cancel := Some(events[0]))
    else if ActiveChange(events[0]) then ScanBase(acc.(changes := acc.changes + [events[0]]), events[1..])
    else ScanBase(acc, events[1..])
  }

  /** The index of the first active CANCEL, or the length when there is none. */
  function FirstCancelIndex(events: seq<Event>): (k: nat)
    ensures k <= |events|
    decreases |events|
  {
    if events == [] || ActiveCancel(events[0]) then 0 else 1 + FirstCancelIndex(events[1..])
  }

  /** The active CHANGE events, in order. */
  function ActiveChanges(events: seq<Event>): seq<Event>
    decreases |events|
  {
    if events == [] then []
    else (if ActiveChange(events[0]) then [events[0]] else []) + ActiveChanges(events[1..])
  }

  /** The scan holds the first active CANCEL (or keeps what it held when there
      is none) and adds exactly the active CHANGEs that come before it. */
  lemma {:induction false} ScanBaseCorrect(acc: BaseTriggers, events: seq<Event>)
    ensures var k := FirstCancelIndex(events); var r := ScanBase(acc, events);
      && (forall i :: 0 <= i < k ==> !ActiveCancel(events[i]))
      && (k < |events| ==> ActiveCancel(events[k]) && r.cancel == Some(events[k]))
      && (k == |events| ==> r.cancel == acc.cancel)
      && r.changes == acc.changes + ActiveChanges(events[..k])
    decreases |events|
  {
    if events == [] {
    } else if ActiveCancel(events[0]) {
      assert events[..0] == [];
    } else {
      var acc' := if ActiveChange(events[0]) then acc.(changes := acc.changes + [events[0]]) else acc;
      var tail := events[1..];
      ScanBaseCorrect(acc', tail);
      var k := FirstCancelIndex(tail);
      assert events[..k + 1] == [events[0]] + tail[..k];
      assert ([events[0]] + tail[..k])[1..] == tail[..k];
      forall i | 0 <= i < k + 1 ensures !ActiveCancel(events[i]) {
        if i > 0 { assert events[i] == tail[i - 1]; }
      }
    }
  }

  /** A base CHANGE triggers the cascade when the add-on's plan is no longer
      available with, or is included in, the new base product. */
  predicate Qualifies(catalog: Catalog, change: Event, addOnPlan: PlanId, alignStartDate: Date) {
    var product := catalog.productOf(change.plan, change.effectiveDate, alignStartDate);
    !catalog.isAddonAvailable(product, addOnPlan) || catalog.isAddonIncluded(product, addOnPlan)
  }

  /** The candidate triggers in the order they are considered: the held base
      cancellation first, then each qualifying CHANGE. */
  function Candidates(catalog: Catalog, triggers: BaseTriggers, addOnPlan: PlanId, alignStartDate: Date): seq<Event> {
    (if triggers.cancel.Some? then [triggers.cancel.value] else []) +
    QualifyingChanges(catalog, triggers.changes, addOnPlan, alignStartDate)
  }

  function QualifyingChanges(catalog: Catalog, changes: seq<Event>, addOnPlan: PlanId, alignStartDate: Date): seq<Event>
    decreases |changes|
  {
    if changes == [] then []
    else (if Qualifies(catalog, changes[0], addOnPlan, alignStartDate) then [changes[0]] else []) +
         QualifyingChanges(catalog, changes[1..], addOnPlan, alignStartDate)
  }

  /** Keeps the held trigger unless a later candidate is strictly earlier. */
  function Earliest(held: Option<Event>, candidates: seq<Event>): Option<Event>
    decreases |candidates|
  {
    if candidates == [] then held
    else
      var c := candidates[0];
      var next := if held.None? || held.value.effectiveDate > c.effectiveDate then Some(c) else held;
      Earliest(next, candidates[1..])
  }

  lemma EarliestCons(held: Option<Event>, c: Event, rest: seq<Event>)
    ensures Earliest(held, [c] + rest) ==
            Earliest(if held.None? || held.value.effectiveDate > c.effectiveDate then Some(c) else held, rest)
  {
    assert ([c] + rest)[1..] == rest;
  }

  function CascadeTrigger(catalog: Catalog, triggers: BaseTriggers, addOnPlan: PlanId, alignStartDate: Date): Option<Event> {
    Earliest(None, Candidates(catalog, triggers, addOnPlan, alignStartDate))
  }

  /** Position `k` holds the first candidate with the smallest effective
      date: no candidate is earlier and every one before it is strictly later. */
  predicate FirstMinimum(all: seq<Event>, k: int) {
    && 0 <= k < |all|
    && (forall j :: 0 <= j < k ==> all[j].effectiveDate > all[k].effectiveDate)
    && (forall j :: 0 <= j < |all| ==> all[k].effectiveDate <= all[j].effectiveDate)
  }

  function WithHeld(held: Option<Event>, candidates: seq<Event>): seq<Event> {
    (if held.Some? then [held.value] else []) + candidates
  }

  /** The trigger kept is the first candidate with the smallest effective
      date, and there is none only when there is no candidate. */
  lemma {:induction false} EarliestIsFirstMinimum(held: Option<Event>, candidates: seq<Event>)
    ensures Earliest(held, candidates).None? <==> WithHeld(held, candidates) == []
    ensures Earliest(held, candidates).Some? ==>
              exists k :: FirstMinimum(WithHeld(held, candidates), k) &&
                          WithHeld(held, candidates)[k] == Earliest(held, candidates).value
    decreases |candidates|
  {
    var all := WithHeld(held, candidates);
    if candidates == [] {
      if held.Some? {
        assert FirstMinimum(all, 0);
      }
    } else {
      var c := candidates[0];
      var next := if held.None? || held.value.effectiveDate > c.effectiveDate then Some(c) else held;
      var rest := candidates[1..];
      assert Earliest(held, candidates) == Earliest(next, rest);
      EarliestIsFirstMinimum(next, rest);
      var allNext := WithHeld(next, rest);
      assert allNext != [];
      var k' :| FirstMinimum(allNext, k') && allNext[k'] == Earliest(next, rest).value;
      var k := EarliestStep(held, c, rest, k');
      assert candidates == [c] + rest;
      assert FirstMinimum(all, k) && all[k] == Earliest(held, candidates).value;
    }
  }

  /** One step of Earliest: the first minimum among the held trigger and
      the candidates `[c] + rest` is found from the one the step leaves. */
  lemma EarliestStep(held: Option<Event>, c: Event, rest: seq<Event>, k': int) returns (k: int)
    requires var next := if held.None? || held.value.effectiveDate > c.effectiveDate then Some(c) else held;
      FirstMinimum(WithHeld(next, rest), k')
    ensures var next := if held.None? || held.value.effectiveDate > c.effectiveDate then Some(c) else held;
      FirstMinimum(WithHeld(held, [c] + rest), k) && WithHeld(held, [c] + rest)[k] == WithHeld(next, rest)[k']
  {
    var all := WithHeld(held, [c] + rest);
    if held.None? {
      assert all == WithHeld(Some(c), rest);
      k := k';
    } else if held.value.effectiveDate > c.effectiveDate {
      EarliestShiftedMinimum(held.value, [c] + rest, k');
      k := k' + 1;
    } else {
      EarliestSkippedMinimum(held.value, c, rest, k');
      assert all == [held.value, c] + rest;
      k := if k' == 0 then 0 else k' + 1;
    }
  }

  /** A held candidate strictly later than the new one is displaced: the
      minimum moves one position. */
  lemma EarliestShiftedMinimum(h: Event, allNext: seq<Event>, k: int)
    requires FirstMinimum(allNext, k) && h.effectiveDate > allNext[0].effectiveDate
    ensures FirstMinimum([h] + allNext, k + 1) && ([h] + allNext)[k + 1] == allNext[k]
  {
    var all := [h] + allNext;
    forall j | 0 <= j < |all| ensures all[k + 1].effectiveDate <= all[j].effectiveDate {
      if j > 0 { assert all[j] == allNext[j - 1]; }
    }
    forall j | 0 <= j < k + 1 ensures all[j].effectiveDate > all[k + 1].effectiveDate {
      if j > 0 { assert all[j] == allNext[j - 1]; }
    }
  }

  /** A held candidate no later than the new one stays held: the new one is
      skipped, and the minimum in the rest moves one position further. */
  lemma EarliestSkippedMinimum(h: Event, c: Event, rest: seq<Event>, k: int)
    requires FirstMinimum([h] + rest, k) && h.effectiveDate <= c.effectiveDate
    ensures FirstMinimum([h, c] + rest, if k == 0 then 0 else k + 1)
    ensures ([h, c] + rest)[if k == 0 then 0 else k + 1] == ([h] + rest)[k]
  {
    var all := [h, c] + rest;
    var allNext := [h] + rest;
    var m := if k == 0 then 0 else k + 1;
    assert all[m] == allNext[k];
    forall j | 0 <= j < |all| ensures all[m].effectiveDate <= all[j].effectiveDate {
      assert allNext[k].effectiveDate <= allNext[0].effectiveDate;
      if j >= 2 { assert all[j] == allNext[j - 1]; }
      else if j == 1 { assert allNext[0] == h && all[1] == c; }
      else { assert all[0] == h == allNext[0]; }
    }
    forall j | 0 <= j < m ensures all[j].effectiveDate > all[m].effectiveDate {
      if j >= 2 { assert all[j] == allNext[j - 1]; }
      if j <= 1 { assert allNext[0] == h; }
    }
  }

  /** The synthetic cancellation of an add-on, at the trigger's effective and
      created dates; it never reached the store. */
  function SyntheticCancel(addOn: SubscriptionId, trigger: Event): (e: Event)
  {
    Event(0, addOn, ApiUser(Cancel), trigger.effectiveDate, trigger.createdDate, 0, true, false, 0)
  }

  /** A subscription as handed to the replay: the subscription and the event
      list it is rebuilt from. */
  datatype Rebuilt = Rebuilt(subscription: Subscription, events: seq<Event>)

  /** The add-on's events, with the synthetic cancellation appended when the
      add-on has a current plan, no end date yet, and a cascade trigger. */
  function AddOnEvents(catalog: Catalog, replay: Replay, triggers: BaseTriggers, addOn: Subscription, events: seq<Event>): seq<Event> {
    match replay.currentPlan(addOn, events)
    case None => events
    case Some(plan) =>
      if replay.hasFutureEndDate(addOn, events) then events
      else match CascadeTrigger(catalog, triggers, plan, addOn.alignStartDate)
        case None => events
        case Some(t) => events + [SyntheticCancel(addOn.id, t)]
  }

  /** An ADD_ON with no current plan, or already ending, keeps its events;
      otherwise it gains a synthetic CANCEL exactly when some candidate exists,
      dated like the first candidate with the smallest effective date. */
  lemma AddOnEventsCorrect(catalog: Catalog, replay: Replay, triggers: BaseTriggers, addOn: Subscription, events: seq<Event>)
    ensures replay.currentPlan(addOn, events).None? || replay.hasFutureEndDate(addOn, events) ==>
              AddOnEvents(catalog, replay, triggers, addOn, events) == events
    ensures replay.currentPlan(addOn, events).Some? && !replay.hasFutureEndDate(addOn, events) ==>
              var cands := Candidates(catalog, triggers, replay.currentPlan(addOn, events).value, addOn.alignStartDate);
              var r := AddOnEvents(catalog, replay, triggers, addOn, events);
              && (cands == [] ==> r == events)
              && (cands != [] ==>
                    exists k :: FirstMinimum(cands, k) && r == events + [SyntheticCancel(addOn.id, cands[k])])
  {
    if replay.currentPlan(addOn, events).Some? && !replay.hasFutureEndDate(addOn, events) {
      var cands := Candidates(catalog, triggers, replay.currentPlan(addOn, events).value, addOn.alignStartDate);
      EarliestIsFirstMinimum(None, cands);
      assert WithHeld(None, cands) == cands;
    }
  }

  /** The BASE subscriptions, in input order. */
  function Bases(subscriptions: seq<Subscription>): seq<Subscription>
    decreases |subscriptions|
  {
    if subscriptions == [] then []
    else
      var last := subscriptions[|subscriptions| - 1];
      Bases(subscriptions[..|subscriptions| - 1]) + (if last.category == Base then [last] else [])
  }

  /** The subscriptions that are not BASE, in input order. */
  function Others(subscriptions: seq<Subscription>): seq<Subscription>
    decreases |subscriptions|
  {
    if subscriptions == [] then []
    else
      var last := subscriptions[|subscriptions| - 1];
      Others(subscriptions[..|subscriptions| - 1]) + (if last.category != Base then [last] else [])
  }

  /** BASE subscriptions first, the others after them, each part in input order. */
  function BaseFirst(subscriptions: seq<Subscription>): seq<Subscription> {
    Bases(subscriptions) + Others(subscriptions)
  }

  predicate HasEvents(subscriptions: seq<Subscription>, eventsFor: map<SubscriptionId, seq<Event>>) {
    forall i :: 0 <= i < |subscriptions| ==> subscriptions[i].id in eventsFor
  }

  /** The stored events of a subscription; every caller supplies them. */
  function EventsOf(eventsFor: map<SubscriptionId, seq<Event>>, id: SubscriptionId): seq<Event> {
    if id in eventsFor then eventsFor[id] else []
  }

  predicate DryRunsCastSafe(subscriptions: seq<Subscription>, eventsFor: map<SubscriptionId, seq<Event>>, dryRuns: seq<Event>)
    requires HasEvents(subscriptions, eventsFor)
  {
    forall i :: 0 <= i < |subscriptions| ==>
      DryRun.AllCastSafe(subscriptions[i].id, eventsFor[subscriptions[i].id], dryRuns)
  }

  /** One subscription of the assembly: a BASE adds its triggers, an ADD_ON
      may receive the synthetic cancellation, any other is left as is. */
  function Step(catalog: Catalog, replay: Replay, cur: Subscription, events: seq<Event>, triggers: BaseTriggers): (Rebuilt, BaseTriggers) {
    match cur.category
    case Base => (Rebuilt(cur, events), ScanBase(triggers, events))
    case AddOn => (Rebuilt(cur, AddOnEvents(catalog, replay, triggers, cur, events)), triggers)
    case Standalone => (Rebuilt(cur, events), triggers)
  }

  /** The reference assembly of subscriptions taken in order, threading the
      base triggers from one subscription to the next. */
  function Assemble(catalog: Catalog, replay: Replay, subscriptions: seq<Subscription>,
                    eventsFor: map<SubscriptionId, seq<Event>>, dryRuns: seq<Event>, triggers: BaseTriggers): seq<Rebuilt>
    decreases |subscriptions|
  {
    if subscriptions == [] then []
    else
      var cur := subscriptions[0];
      var st := Step(catalog, replay, cur, DryRun.MergeAll(cur.id, EventsOf(eventsFor, cur.id), dryRuns), triggers);
      [st.0] + Assemble(catalog, replay, subscriptions[1..], eventsFor, dryRuns, st.1)
  }

  /** The two parts split the input: together they hold each subscription
      once, the first only BASE ones and the second none. */
  lemma CategoryParts(subscriptions: seq<Subscription>)
    ensures multiset(Bases(subscriptions)) + multiset(Others(subscriptions)) == multiset(subscriptions)
    ensures forall i :: 0 <= i < |Bases(subscriptions)| ==> Bases(subscriptions)[i].category == Base
    ensures forall i :: 0 <= i < |Others(subscriptions)| ==> Others(subscriptions)[i].category != Base
  {
    PartsSplitInput(subscriptions);
    BasesAreBase(subscriptions);
    OthersAreNotBase(subscriptions);
  }

  lemma {:induction false} PartsSplitInput(subscriptions: seq<Subscription>)
    ensures multiset(Bases(subscriptions)) + multiset(Others(subscriptions)) == multiset(subscriptions)
    decreases |subscriptions|
  {
    if subscriptions != [] {
      var init := subscriptions[..|subscriptions| - 1];
      var last := subscriptions[|subscriptions| - 1];
      PartsSplitInput(init);
      assert subscriptions == init + [last];
      if last.category == Base {
        assert Bases(subscriptions) == Bases(init) + [last] && Others(subscriptions) == Others(init);
      } else {
        assert Bases(subscriptions) == Bases(init) && Others(subscriptions) == Others(init) + [last];
      }
    }
  }

  lemma {:induction false} BasesAreBase(subscriptions: seq<Subscription>)
    ensures forall i :: 0 <= i < |Bases(subscriptions)| ==> Bases(subscriptions)[i].category == Base
    decreases |subscriptions|
  {
    if subscriptions != [] {
      BasesAreBase(subscriptions[..|subscriptions| - 1]);
    }
  }

  lemma {:induction false} OthersAreNotBase(subscriptions: seq<Subscription>)
    ensures forall i :: 0 <= i < |Others(subscriptions)| ==> Others(subscriptions)[i].category != Base
    decreases |subscriptions|
  {
    if subscriptions != [] {
      OthersAreNotBase(subscriptions[..|subscriptions| - 1]);
    }
  }

  lemma BaseFirstMembers(subscriptions: seq<Subscription>)
    ensures |BaseFirst(subscriptions)| == |subscriptions|
    ensures multiset(BaseFirst(subscriptions)) == multiset(subscriptions)
    ensures forall i, j :: 0 <= i < j < |BaseFirst(subscriptions)| && BaseFirst(subscriptions)[j].category == Base ==>
              BaseFirst(subscriptions)[i].category == Base
  {
    CategoryParts(subscriptions);
    var b := Bases(subscriptions);
    var r := BaseFirst(subscriptions);
    assert |r| == |multiset(r)|;
    forall i, j | 0 <= i < j < |r| && r[j].category == Base ensures r[i].category == Base {
      assert r[i] == b[i];
    }
  }

  /** Every assembled subscription keeps its identity and its merged events;
      only an ADD_ON may gain one event, a not-from-disk CANCEL at the date of
      one of the base triggers. */
  lemma {:induction false} AssembleShape(catalog: Catalog, replay: Replay, subscriptions: seq<Subscription>,
                                          eventsFor: map<SubscriptionId, seq<Event>>, dryRuns: seq<Event>, triggers: BaseTriggers)
    ensures var r := Assemble(catalog, replay, subscriptions, eventsFor, dryRuns, triggers);
      && |r| == |subscriptions|
      && forall i :: 0 <= i < |r| ==>
           var merged := DryRun.MergeAll(subscriptions[i].id, EventsOf(eventsFor, subscriptions[i].id), dryRuns);
           && r[i].subscription == subscriptions[i]
           && (r[i].events == merged ||
               (subscriptions[i].category == AddOn && |r[i].events| == |merged| + 1 &&
                r[i].events[..|merged|] == merged &&
                r[i].events[|merged|].kind == ApiUser(Cancel) && !r[i].events[|merged|].fromDisk &&
                r[i].events[|merged|].subscriptionId == subscriptions[i].id))
    decreases |subscriptions|
  {
    if subscriptions != [] {
      var cur := subscriptions[0];
      var events := DryRun.MergeAll(cur.id, EventsOf(eventsFor, cur.id), dryRuns);
      var next := Step(catalog, replay, cur, events, triggers).1;
      var tail := subscriptions[1..];
      AssembleShape(catalog, replay, tail, eventsFor, dryRuns, next);
      var r := Assemble(catalog, replay, subscriptions, eventsFor, dryRuns, triggers);
      assert r[1..] == Assemble(catalog, replay, tail, eventsFor, dryRuns, next);
      forall i | 1 <= i < |r|
        ensures r[i] == Assemble(catalog, replay, tail, eventsFor, dryRuns, next)[i - 1]
        ensures subscriptions[i] == tail[i - 1]
      {
      }
      var ev := r[0].events;
      if ev != events {
        assert ev == events + [ev[|events|]];
        assert ev[..|events|] == events;
      }
    }
  }

  /** The triggers collected from BASE subscriptions taken in order, each
      scanned over its dry-run-merged events. */
  function ScanBases(bases: seq<Subscription>, eventsFor: map<SubscriptionId, seq<Event>>, dryRuns: seq<Event>,
                     acc: BaseTriggers): BaseTriggers
    decreases |bases|
  {
    if bases == [] then acc
    else ScanBases(bases[1..], eventsFor, dryRuns,
                   ScanBase(acc, DryRun.MergeAll(bases[0].id, EventsOf(eventsFor, bases[0].id), dryRuns)))
  }

  /** Assembling BASE subscriptions and then the rest hands the rest the
      triggers scanned from all the BASE subscriptions. */
  lemma {:induction false} AssembleAfterBases(catalog: Catalog, replay: Replay, bases: seq<Subscription>, rest: seq<Subscription>,
                                               eventsFor: map<SubscriptionId, seq<Event>>, dryRuns: seq<Event>, triggers: BaseTriggers)
    requires forall i :: 0 <= i < |bases| ==> bases[i].category == Base
    ensures Assemble(catalog, replay, bases + rest, eventsFor, dryRuns, triggers) ==
            Assemble(catalog, replay, bases, eventsFor, dryRuns, triggers) +
            Assemble(catalog, replay, rest, eventsFor, dryRuns, ScanBases(bases, eventsFor, dryRuns, triggers))
    decreases |bases|
  {
    if bases == [] {
      assert bases + rest == rest;
    } else {
      var b := bases[0];
      var merged := DryRun.MergeAll(b.id, EventsOf(eventsFor, b.id), dryRuns);
      var next := ScanBase(triggers, merged);
      var head := Rebuilt(b, merged);
      assert Step(catalog, replay, b, merged, triggers) == (head, next);
      assert (bases + rest)[0] == b && (bases + rest)[1..] == bases[1..] + rest;
      AssembleAfterBases(catalog, replay, bases[1..], rest, eventsFor, dryRuns, next);
      var x := Assemble(catalog, replay, bases[1..], eventsFor, dryRuns, next);
      var y := Assemble(catalog, replay, rest, eventsFor, dryRuns, ScanBases(bases[1..], eventsFor, dryRuns, next));
      assert Assemble(catalog, replay, bases + rest, eventsFor, dryRuns, triggers) == [head] + (x + y);
      assert Assemble(catalog, replay, bases, eventsFor, dryRuns, triggers) == [head] + x;
      assert [head] + (x + y) == ([head] + x) + y;
    }
  }

  /** Subscriptions that are not BASE leave the triggers alone: each is
      assembled against the same triggers. */
  lemma {:induction false} AssembleOthers(catalog: Catalog, replay: Replay, others: seq<Subscription>,
                                           eventsFor: map<SubscriptionId, seq<Event>>, dryRuns: seq<Event>, triggers: BaseTriggers)
    requires forall i :: 0 <= i < |others| ==> others[i].category != Base
    ensures var r := Assemble(catalog, replay, others, eventsFor, dryRuns, triggers);
      && |r| == |others|
      && forall i :: 0 <= i < |others| ==>
           var merged := DryRun.MergeAll(others[i].id, EventsOf(eventsFor, others[i].id), dryRuns);
           r[i] == Rebuilt(others[i], if others[i].category == AddOn
                                      then AddOnEvents(catalog, replay, triggers, others[i], merged) else merged)
    decreases |others|
  {
    if others != [] {
      AssembleOthers(catalog, replay, others[1..], eventsFor, dryRuns, triggers);
      var r := Assemble(catalog, replay, others, eventsFor, dryRuns, triggers);
      assert r[1..] == Assemble(catalog, replay, others[1..], eventsFor, dryRuns, triggers);
      forall i | 1 <= i < |others|
        ensures r[i] == Assemble(catalog, replay, others[1..], eventsFor, dryRuns, triggers)[i - 1]
        ensures others[i] == others[1..][i - 1]
      {
      }
    }
  }

  /** In the BASE-first assembly every subscription after the BASE ones is
      rebuilt against the triggers of all the BASE subscriptions: an ADD_ON
      gets the cascade of those triggers, any other keeps its merged events. */
  lemma AddOnsSeeAllBases(catalog: Catalog, replay: Replay, input: seq<Subscription>,
                          eventsFor: map<SubscriptionId, seq<Event>>, dryRuns: seq<Event>)
    ensures var r := Assemble(catalog, replay, BaseFirst(input), eventsFor, dryRuns, NoTriggers);
      var bases := Bases(input);
      var others := Others(input);
      var triggers := ScanBases(bases, eventsFor, dryRuns, NoTriggers);
      && |r| == |bases| + |others| == |input|
      && forall i :: 0 <= i < |others| ==>
           var merged := DryRun.MergeAll(others[i].id, EventsOf(eventsFor, others[i].id), dryRuns);
           r[|bases| + i] == Rebuilt(others[i], if others[i].category == AddOn
                                                then AddOnEvents(catalog, replay, triggers, others[i], merged) else merged)
  {
    var bases := Bases(input);
    var others := Others(input);
    var triggers := ScanBases(bases, eventsFor, dryRuns, NoTriggers);
    CategoryParts(input);
    BaseFirstMembers(input);
    AssembleAfterBases(catalog, replay, bases, others, eventsFor, dryRuns, NoTriggers);
    AssembleShape(catalog, replay, bases, eventsFor, dryRuns, NoTriggers);
    AssembleOthers(catalog, replay, others, eventsFor, dryRuns, triggers);
    var a := Assemble(catalog, replay, bases, eventsFor, dryRuns, NoTriggers);
    var b := Assemble(catalog, replay, others, eventsFor, dryRuns, triggers);
    assert Assemble(catalog, replay, BaseFirst(input), eventsFor, dryRuns, NoTriggers) == a + b;
    forall i | 0 <= i < |others| ensures (a + b)[|bases| + i] == b[i] {
    }
  }

  /** Assembles a bundle: the subscriptions are sorted BASE first; each one's
      events get the dry-run overlay; a BASE contributes its triggers; an
      ADD_ON with a current plan and no end date gets a synthetic CANCEL at the
      earliest trigger. */
  method BuildBundleSubscriptions(catalog: Catalog, replay: Replay, input: seq<Subscription>,
                                  eventsFor: map<SubscriptionId, seq<Event>>, dryRuns: seq<Event>)
    returns (result: seq<Rebuilt>)
    requires HasEvents(input, eventsFor)
    requires DryRunsCastSafe(input, eventsFor, dryRuns)
    ensures result == Assemble(catalog, replay, BaseFirst(input), eventsFor, dryRuns, NoTriggers)
  {
    var sorted := SortBaseFirst(input);
    BaseFirstMembers(input);
    EventsSurviveSort(input, sorted, eventsFor, dryRuns);
    var triggers := NoTriggers;
    result := [];
    var n := 0;
    while n < |sorted|
      invariant 0 <= n <= |sorted|
      invariant result + Assemble(catalog, replay, sorted[n..], eventsFor, dryRuns, triggers) ==
                Assemble(catalog, replay, sorted, eventsFor, dryRuns, NoTriggers)
    {
      var cur := sorted[n];
      AssembleAt(catalog, replay, sorted, n, eventsFor, dryRuns, triggers);
      var events := DryRun.MergeDryRunEvents(cur.id, eventsFor[cur.id], dryRuns);
      var rebuilt;
      rebuilt, triggers := StepOne(catalog, replay, cur, events, triggers);
      result := result + [rebuilt];
      n := n + 1;
    }
    assert sorted[n..] == [];
  }

  /** A reordering keeps every subscription's stored events and their safety. */
  lemma EventsSurviveSort(input: seq<Subscription>, sorted: seq<Subscription>,
                          eventsFor: map<SubscriptionId, seq<Event>>, dryRuns: seq<Event>)
    requires multiset(sorted) == multiset(input)
    requires HasEvents(input, eventsFor) && DryRunsCastSafe(input, eventsFor, dryRuns)
    ensures HasEvents(sorted, eventsFor) && DryRunsCastSafe(sorted, eventsFor, dryRuns)
  {
    forall i | 0 <= i < |sorted|
      ensures sorted[i].id in eventsFor && DryRun.AllCastSafe(sorted[i].id, eventsFor[sorted[i].id], dryRuns)
    {
      assert sorted[i] in multiset(input);
      var j :| 0 <= j < |input| && input[j] == sorted[i];
    }
  }

  /** The assembly from position n takes that subscription's step first. */
  lemma AssembleAt(catalog: Catalog, replay: Replay, sorted: seq<Subscription>, n: nat,
                   eventsFor: map<SubscriptionId, seq<Event>>, dryRuns: seq<Event>, triggers: BaseTriggers)
    requires n < |sorted| && HasEvents(sorted, eventsFor) && DryRunsCastSafe(sorted, eventsFor, dryRuns)
    ensures sorted[n].id in eventsFor && DryRun.AllCastSafe(sorted[n].id, eventsFor[sorted[n].id], dryRuns)
    ensures var st := Step(catalog, replay, sorted[n], DryRun.MergeAll(sorted[n].id, eventsFor[sorted[n].id], dryRuns), triggers);
            Assemble(catalog, replay, sorted[n..], eventsFor, dryRuns, triggers) ==
            [st.0] + Assemble(catalog, replay, sorted[n + 1..], eventsFor, dryRuns, st.1)
  {
    assert sorted[n..][0] == sorted[n] && sorted[n..][1..] == sorted[n + 1..];
  }

  /** The body of the assembly loop for one subscription. */
  method StepOne(catalog: Catalog, replay: Replay, cur: Subscription, merged: seq<Event>, triggers: BaseTriggers)
    returns (rebuilt: Rebuilt, next: BaseTriggers)
    ensures (rebuilt, next) == Step(catalog, replay, cur, merged, triggers)
  {
    var events := merged;
    next := triggers;
    match cur.category {
      case Base =>
        next := ScanBaseEvents(triggers, events);
      case AddOn =>
        var targetPlan := replay.currentPlan(cur, events);
        if targetPlan.Some? && !replay.hasFutureEndDate(cur, events) {
          var trigger := PickTrigger(catalog, triggers, targetPlan.value, cur.alignStartDate);
          if trigger.Some? {
            events := events + [SyntheticCancel(cur.id, trigger.value)];
          }
        }
      case Standalone =>
    }
    rebuilt := Rebuilt(cur, events);
  }

  /** The sort that puts BASE subscriptions first. */
  method SortBaseFirst(input: seq<Subscription>) returns (sorted: seq<Subscription>)
    ensures sorted == BaseFirst(input)
  {
    var bases: seq<Subscription> := [];
    var others: seq<Subscription> := [];
    var i := 0;
    while i < |input|
      invariant 0 <= i <= |input|
      invariant bases == Bases(input[..i]) && others == Others(input[..i])
    {
      assert input[..i + 1][..i] == input[..i];
      if input[i].category == Base {
        bases := bases + [input[i]];
      } else {
        others := others + [input[i]];
      }
      i := i + 1;
    }
    assert input[..i] == input;
    sorted := bases + others;
  }

  /** The event loop over a base subscription, leaving at its first active
      CANCEL. */
  method ScanBaseEvents(acc: BaseTriggers, events: seq<Event>) returns (r: BaseTriggers)
    ensures r == ScanBase(acc, events)
  {
    r := acc;
    var j := 0;
    while j < |events|
      invariant 0 <= j <= |events|
      invariant ScanBase(r, events[j..]) == ScanBase(acc, events)
    {
      var event := events[j];
      assert events[j..][0] == event && events[j..][1..] == events[j + 1..];
      if !event.active {
      } else if IsApi(event, Cancel) {
        r := r.(cancel := Some(event));
        return;
      } else if IsApi(event, Change) {
        r := r.(changes := r.changes + [event]);
      }
      j := j + 1;
    }
    assert events[j..] == [];
  }

  /** The loop over the base CHANGE events that keeps the earliest qualifying
      trigger, starting from the held base cancellation. */
  method PickTrigger(catalog: Catalog, triggers: BaseTriggers, addOnPlan: PlanId, alignStartDate: Date) returns (t: Option<Event>)
    ensures t == CascadeTrigger(catalog, triggers, addOnPlan, alignStartDate)
  {
    t := triggers.cancel;
    var changes := triggers.changes;
    var q := QualifyingChanges(catalog, changes, addOnPlan, alignStartDate);
    if t.Some? {
      EarliestCons(None, t.value, q);
    } else {
      assert Candidates(catalog, triggers, addOnPlan, alignStartDate) == q;
    }
    var j := 0;
    while j < |changes|
      invariant 0 <= j <= |changes|
      invariant Earliest(t, QualifyingChanges(catalog, changes[j..], addOnPlan, alignStartDate)) ==
                CascadeTrigger(catalog, triggers, addOnPlan, alignStartDate)
    {
      var change := changes[j];
      assert changes[j..][0] == change && changes[j..][1..] == changes[j + 1..];
      var rest := QualifyingChanges(catalog, changes[j + 1..], addOnPlan, alignStartDate);
      if Qualifies(catalog, change, addOnPlan, alignStartDate) {
        EarliestCons(t, change, rest);
      } else {
        assert QualifyingChanges(catalog, changes[j..], addOnPlan, alignStartDate) == rest;
      }
      var product := catalog.productOf(change.plan, change.effectiveDate, alignStartDate);
      if !catalog.isAddonAvailable(product, addOnPlan) || catalog.isAddonIncluded(product, addOnPlan) {
        if t.Some? {
          if t.value.effectiveDate > change.effectiveDate {
            t := Some(change);
          }
        } else {
          t := Some(change);
        }
      }
      j := j + 1;
    }
    assert changes[j..] == [];
  }
}
