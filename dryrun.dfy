/** The dry-run merger: hypothetical events are overlaid on a subscription's
    real event list, for a simulated replay that is never persisted. */
module DryRun {
  import opened Events

  predicate IsApiChange(d: Event) {
    IsApi(d, Change)
  }

  /** A real event on the dry-run event's date that a dry-run API CHANGE
      replaces: the subscription's genesis event. */
  predicate ReplacedGenesis(e: Event, d: Event) {
    e.effectiveDate == d.effectiveDate && IsApiChange(d) && IsGenesis(e)
  }

  /** A real event the dry-run event `d` removes: one strictly after it, or a
      genesis event it replaces. */
  predicate Removed(e: Event, d: Event) {
    e.effectiveDate > d.effectiveDate || ReplacedGenesis(e, d)
  }

  /** The test on a same-date real event reads it as an API event whenever the
      dry-run event is an API CHANGE; a non-API event there would fail that
      cast, so callers never pass one. */
  predicate CastSafe(events: seq<Event>, d: Event) {
    IsApiChange(d) ==>
      forall i :: 0 <= i < |events| && events[i].effectiveDate == d.effectiveDate ==> events[i].kind.ApiUser?
  }

  /** The real events that survive `d`, in their original order. */
  function Kept(events: seq<Event>, d: Event): (r: seq<Event>)
    decreases |events|
  {
    if events == [] then []
    else Kept(events[..|events| - 1], d) + (if Removed(events[|events| - 1], d) then [] else [events[|events| - 1]])
  }

  predicate GenesisReplaced(events: seq<Event>, d: Event) {
    exists i :: 0 <= i < |events| && ReplacedGenesis(events[i], d)
  }

  /** The dry-run event as it is appended: retyped to CREATE when it replaces
      the genesis event, and ordered one past the last surviving event. */
  function Appended(kept: seq<Event>, d: Event, swap: bool): Event {
    var retyped := if swap && d.kind.ApiUser? then d.(kind := ApiUser(Create)) else d;
    if kept != [] then retyped.(totalOrdering := kept[|kept| - 1].totalOrdering + 1) else retyped
  }

  /** Merge of one dry-run event into the event list of `subscriptionId`. */
  function MergeOne(subscriptionId: SubscriptionId, events: seq<Event>, d: Event): seq<Event> {
    if d.subscriptionId != subscriptionId then events
    else Kept(events, d) + [Appended(Kept(events, d), d, GenesisReplaced(events, d))]
  }

  /** Every dry-run event of this subscription meets the cast condition
      against the list as it stands when that event is merged. */
  predicate AllCastSafe(subscriptionId: SubscriptionId, events: seq<Event>, dryRuns: seq<Event>)
    decreases |dryRuns|
  {
    dryRuns != [] ==>
      && (dryRuns[0].subscriptionId == subscriptionId ==> CastSafe(events, dryRuns[0]))
      && AllCastSafe(subscriptionId, MergeOne(subscriptionId, events, dryRuns[0]), dryRuns[1..])
  }

  /** All dry-run events merged in turn. */
  function MergeAll(subscriptionId: SubscriptionId, events: seq<Event>, dryRuns: seq<Event>): seq<Event>
    decreases |dryRuns|
  {
    if dryRuns == [] then events
    else MergeAll(subscriptionId, MergeOne(subscriptionId, events, dryRuns[0]), dryRuns[1..])
  }

  lemma {:induction false} KeptMembers(events: seq<Event>, d: Event)
    ensures forall e :: e in Kept(events, d) <==> e in events && !Removed(e, d)
    ensures |Kept(events, d)| <= |events|
    decreases |events|
  {
    if events != [] {
      KeptMembers(events[..|events| - 1], d);
      assert events == events[..|events| - 1] + [events[|events| - 1]];
    }
  }

  /** Merging a dry-run event of this subscription truncates the real events
      after it, replaces a genesis event on its date when it is an API CHANGE
      (retyping it to CREATE), keeps every other real event, and appends it
      last, ordered one past the previous last event. */
  lemma MergeOneCorrect(subscriptionId: SubscriptionId, events: seq<Event>, d: Event)
    requires d.subscriptionId == subscriptionId
    ensures var r := MergeOne(subscriptionId, events, d);
      && |r| >= 1
      && (forall i :: 0 <= i < |r| - 1 ==> r[i] in events && r[i].effectiveDate <= d.effectiveDate)
      && (forall i :: 0 <= i < |r| - 1 ==> !ReplacedGenesis(r[i], d))
      && (forall e :: e in events && e.effectiveDate <= d.effectiveDate && !ReplacedGenesis(e, d) ==> e in r[..|r| - 1])
      && r[|r| - 1].effectiveDate == d.effectiveDate
      && r[|r| - 1].kind == (if IsApiChange(d) && exists e :: e in events && IsGenesis(e) && e.effectiveDate == d.effectiveDate
                             then ApiUser(Create) else d.kind)
      && r[|r| - 1].totalOrdering == (if |r| > 1 then r[|r| - 2].totalOrdering + 1 else d.totalOrdering)
      && r[|r| - 1] == d.(kind := r[|r| - 1].kind, totalOrdering := r[|r| - 1].totalOrdering)
  {
    var kept := Kept(events, d);
    KeptMembers(events, d);
    var r := MergeOne(subscriptionId, events, d);
    assert r[..|r| - 1] == kept;
    forall i | 0 <= i < |r| - 1
      ensures r[i] in events && r[i].effectiveDate <= d.effectiveDate && !ReplacedGenesis(r[i], d)
    {
      assert r[i] == kept[i] && kept[i] in kept;
    }
    if IsApiChange(d) && exists e :: e in events && IsGenesis(e) && e.effectiveDate == d.effectiveDate {
      var e :| e in events && IsGenesis(e) && e.effectiveDate == d.effectiveDate;
      var i :| 0 <= i < |events| && events[i] == e;
      assert ReplacedGenesis(events[i], d);
    }
  }

  /** Dry-run events of other subscriptions leave the list unchanged. */
  lemma {:induction false} MergeAllOtherSubscriptions(subscriptionId: SubscriptionId, events: seq<Event>, dryRuns: seq<Event>)
    requires forall i :: 0 <= i < |dryRuns| ==> dryRuns[i].subscriptionId != subscriptionId
    ensures MergeAll(subscriptionId, events, dryRuns) == events
    decreases |dryRuns|
  {
    if dryRuns != [] {
      MergeAllOtherSubscriptions(subscriptionId, events, dryRuns[1..]);
    }
  }

  /** Once a dry-run event of this subscription has been merged, no later
      merge can leave an event after the last dry-run date of the batch. */
  lemma {:induction false} MergeAllLastDryRun(subscriptionId: SubscriptionId, events: seq<Event>, dryRuns: seq<Event>)
    requires dryRuns != [] && dryRuns[|dryRuns| - 1].subscriptionId == subscriptionId
    ensures var r := MergeAll(subscriptionId, events, dryRuns);
      && r != []
      && (forall i :: 0 <= i < |r| ==> r[i].effectiveDate <= dryRuns[|dryRuns| - 1].effectiveDate)
      && r[|r| - 1].effectiveDate == dryRuns[|dryRuns| - 1].effectiveDate
    decreases |dryRuns|
  {
    var d := dryRuns[0];
    var next := MergeOne(subscriptionId, events, d);
    if |dryRuns| == 1 {
      MergeOneCorrect(subscriptionId, events, d);
      assert MergeAll(subscriptionId, next, dryRuns[1..]) == next;
    } else {
      assert dryRuns[1..][|dryRuns[1..]| - 1] == dryRuns[|dryRuns| - 1];
      MergeAllLastDryRun(subscriptionId, next, dryRuns[1..]);
    }
  }

  /** Walks the dry-run events; for each one of this subscription, walks the
      real events once, dropping those it removes and noting whether it
      replaced the genesis event, then appends it. */
  method MergeDryRunEvents(subscriptionId: SubscriptionId, events: seq<Event>, dryRuns: seq<Event>) returns (merged: seq<Event>)
    requires AllCastSafe(subscriptionId, events, dryRuns)
    ensures merged == MergeAll(subscriptionId, events, dryRuns)
  {
    merged := events;
    var k := 0;
    while k < |dryRuns|
      invariant 0 <= k <= |dryRuns|
      invariant AllCastSafe(subscriptionId, merged, dryRuns[k..])
      invariant MergeAll(subscriptionId, merged, dryRuns[k..]) == MergeAll(subscriptionId, events, dryRuns)
    {
      var d := dryRuns[k];
      assert dryRuns[k..][0] == d && dryRuns[k..][1..] == dryRuns[k + 1..];
      if d.subscriptionId == subscriptionId {
        var kept: seq<Event> := [];
        var swap := false;
        var j := 0;
        while j < |merged|
          invariant 0 <= j <= |merged|
          invariant kept == Kept(merged[..j], d)
          invariant swap <==> GenesisReplaced(merged[..j], d)
        {
          var e := merged[j];
          assert merged[..j + 1][..j] == merged[..j] && merged[..j + 1][j] == e;
          if e.effectiveDate > d.effectiveDate {
            // dropped: after the dry-run event
          } else if e.effectiveDate == d.effectiveDate && IsApiChange(d) && IsGenesis(e) {
            swap := true;
          } else {
            kept := kept + [e];
          }
          j := j + 1;
        }
        assert merged[..j] == merged;
        merged := kept + [Appended(kept, d, swap)];
      }
      k := k + 1;
    }
    assert dryRuns[k..] == [];
  }
}
