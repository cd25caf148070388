/** The store's tables as one value, and the new tables each transactional
    operation of the subscription store produces. The store class is proved
    against these functions; the lemmas here state what each operation
    promises about the event log, the bundle table and the outbox. */
module Transitions {
  import opened Events
  import opened Collaborators
  import opened EventLog

  datatype Tables = Tables(
    events: seq<Event>,
    subscriptions: seq<Subscription>,
    bundles: seq<Bundle>,
    outbox: seq<Post>)

  /** Appends one event; its total ordering becomes its record number. */
  function InsertEvent(t: Tables, e: Event): Tables {
    t.(events := t.events + [e.(totalOrdering := |t.events| + 1)])
  }

  function PostAll(t: Tables, posts: seq<Post>): Tables {
    t.(outbox := t.outbox + posts)
  }

  function DeactivateAll(t: Tables, ids: set<EventId>): Tables {
    t.(events := DeactivateIds(t.events, ids))
  }

  // ---------------------------------------------------------------------
  // Cancel / expire
  // ---------------------------------------------------------------------

  /** Cancel or expiry of one subscription: its active events at or after the
      cancel date are deactivated (BCD and quantity updates included), the
      cancel event is stored, then either posted as effective (when already
      effective) or scheduled, and a CANCEL requested post follows. */
  function AfterCancel(replay: Replay, t: Tables, sub: Subscription, ev: Event, now: Date, seqId: int): Tables {
    var rows := ActiveRows(t.events, sub.id, AtOrAfter(ev.effectiveDate));
    var t1 := DeactivateAll(t, DeactivationIds(rows, true));
    var stored := ev.(totalOrdering := |t.events| + 1);
    var t2 := InsertEvent(t1, ev);
    PostAll(t2, BusOrSchedule(replay, sub, stored, stored.effectiveDate <= now, seqId) +
                [RequestedPost(stored.id, CancelTransition, 0)])
  }

  /** Cancel of a batch: the i-th subscription with the i-th event, the
      effective posts numbered downwards from |subs| - 1 to 0. */
  function AfterCancelAll(replay: Replay, t: Tables, subs: seq<Subscription>, evs: seq<Event>, now: Date): Tables
    requires |evs| >= |subs|
    decreases |subs|
  {
    if subs == [] then t
    else AfterCancelAll(replay, AfterCancel(replay, t, subs[0], evs[0], now, |subs| - 1), subs[1..], evs[1..], now)
  }

  /** Cancels of a transfer, each with sequence id 0. */
  function AfterTransferCancels(replay: Replay, t: Tables, subs: seq<Subscription>, evs: seq<Event>, now: Date): Tables
    requires |evs| >= |subs|
    decreases |subs|
  {
    if subs == [] then t
    else AfterTransferCancels(replay, AfterCancel(replay, t, subs[0], evs[0], now, 0), subs[1..], evs[1..], now)
  }

  lemma AfterCancelEffect(replay: Replay, t: Tables, sub: Subscription, ev: Event, now: Date, seqId: int)
    requires WellFormed(t.events) && ev.id !in Ids(t.events)
    ensures var r := AfterCancel(replay, t, sub, ev, now, seqId);
      && WellFormed(r.events)
      && Ids(r.events) == Ids(t.events) + {ev.id}
      && r.subscriptions == t.subscriptions && r.bundles == t.bundles
  {
    var rows := ActiveRows(t.events, sub.id, AtOrAfter(ev.effectiveDate));
    var d := DeactivateIds(t.events, DeactivationIds(rows, true));
    DeactivatePreservesWellFormed(t.events, DeactivationIds(rows, true));
    IdsAppend(d, ev.(totalOrdering := |t.events| + 1));
  }

  /** After a cancel, the only active events of the subscription at or after
      the cancel date are genesis events and the cancel event itself. */
  lemma CancelClearsFuture(replay: Replay, t: Tables, sub: Subscription, ev: Event, now: Date, seqId: int)
    requires WellFormed(t.events) && ev.id !in Ids(t.events)
    ensures var r := AfterCancel(replay, t, sub, ev, now, seqId);
      forall e :: e in ActiveRows(r.events, sub.id, AtOrAfter(ev.effectiveDate)) ==>
        IsGenesis(e) || e == ev.(totalOrdering := |t.events| + 1)
  {
    var rows := ActiveRows(t.events, sub.id, AtOrAfter(ev.effectiveDate));
    ActiveRowsMembers(t.events, sub.id, AtOrAfter(ev.effectiveDate));
    UnactivateEffect(t.events, rows, true);
    var d := DeactivateIds(t.events, DeactivationIds(rows, true));
    var r := AfterCancel(replay, t, sub, ev, now, seqId);
    assert r.events == d + [ev.(totalOrdering := |t.events| + 1)];
    ActiveRowsMembers(r.events, sub.id, AtOrAfter(ev.effectiveDate));
    forall e | e in ActiveRows(r.events, sub.id, AtOrAfter(ev.effectiveDate))
      ensures IsGenesis(e) || e == ev.(totalOrdering := |t.events| + 1)
    {
      var i :| 0 <= i < |r.events| && r.events[i] == e;
      if i < |d| {
        assert d[i] == e;
        assert t.events[i] == e;
        ShouldDeactivateCases(e, true);
      }
    }
  }

  // ---------------------------------------------------------------------
  // Next phase / expiry
  // ---------------------------------------------------------------------

  function PhaseOrExpired(next: Event): TransitionType {
    if next.kind == Phase then PhaseTransition else ExpiredTransition
  }

  /** The next PHASE or EXPIRED event: the pending future PHASE event, if
      there is exactly one, is deactivated; the new event is stored and
      scheduled; a PHASE or EXPIRED requested post and the effective post of
      the phase that just became due follow. Two pending PHASE events are
      an internal error and leave everything unchanged. */
  function AfterNextPhase(replay: Replay, t: Tables, sub: Subscription, ready: Event, next: Event, now: Date): Result<Tables> {
    var pending := Matching(ActiveRows(t.events, sub.id, After(now)), PhaseTag, None);
    if |pending| >= 2 then Err(MultipleFutureEvents(PhaseTag))
    else
      var t1 := if pending == [] then t else DeactivateAll(t, {pending[0].id});
      Ok(PostAll(InsertEvent(t1, next),
                 [Scheduled(next.effectiveDate, next.id), RequestedPost(next.id, PhaseOrExpired(next), 0)] +
                 EffectiveNotice(replay, sub, ready, 0)))
  }

  /** Once the next phase is recorded, the subscription has exactly one
      active future PHASE event when the new one is a future PHASE, and none
      when it is an expiry. */
  lemma NextPhaseLeavesOnePending(replay: Replay, t: Tables, sub: Subscription, ready: Event, next: Event, now: Date)
    requires WellFormed(t.events) && next.id !in Ids(t.events)
    requires next.subscriptionId == sub.id && next.active && next.effectiveDate > now
    requires AfterNextPhase(replay, t, sub, ready, next, now).Ok?
    ensures var r := AfterNextPhase(replay, t, sub, ready, next, now).value;
      |Matching(ActiveRows(r.events, sub.id, After(now)), PhaseTag, None)| == (if next.kind == Phase then 1 else 0)
  {
    var rows := ActiveRows(t.events, sub.id, After(now));
    var pending := Matching(rows, PhaseTag, None);
    var t1 := if pending == [] then t else DeactivateAll(t, {pending[0].id});
    var stored := next.(totalOrdering := |t.events| + 1);
    var r := AfterNextPhase(replay, t, sub, ready, next, now).value;
    assert r.events == t1.events + [stored];
    MatchingActiveAfterDeactivation(t.events, sub.id, now, pending);
    assert Selected(stored, sub.id, After(now));
    PendingAfterAppend(t1.events, stored, sub.id, now);
  }

  /** Appending one future event to rows with no pending PHASE leaves one
      pending PHASE exactly when that event is a PHASE. */
  lemma PendingAfterAppend(s: seq<Event>, stored: Event, subscriptionId: SubscriptionId, now: Date)
    requires Matching(ActiveRows(s, subscriptionId, After(now)), PhaseTag, None) == []
    requires Selected(stored, subscriptionId, After(now))
    ensures |Matching(ActiveRows(s + [stored], subscriptionId, After(now)), PhaseTag, None)| ==
            (if MatchesLookup(stored, PhaseTag, None) then 1 else 0)
  {
    var rows1 := ActiveRows(s, subscriptionId, After(now));
    ActiveRowsAppend(s, stored, subscriptionId, After(now));
    MatchingAppend(rows1, [stored], PhaseTag, None);
    assert [stored][..0] == [];
    assert Matching([stored], PhaseTag, None) == if MatchesLookup(stored, PhaseTag, None) then [stored] else [];
  }

  lemma {:induction false} ActiveRowsAppend(s: seq<Event>, e: Event, subscriptionId: SubscriptionId, w: Window)
    ensures ActiveRows(s + [e], subscriptionId, w) ==
            ActiveRows(s, subscriptionId, w) + (if Selected(e, subscriptionId, w) then [e] else [])
  {
    assert (s + [e])[..|s + [e]| - 1] == s;
  }

  lemma {:induction false} MatchingAppend(a: seq<Event>, b: seq<Event>, tag: EventTag, api: Option<ApiEventType>)
    ensures Matching(a + b, tag, api) == Matching(a, tag, api) + Matching(b, tag, api)
    decreases |b|
  {
    if b == [] {
      assert a + b == a;
    } else {
      var init := b[..|b| - 1];
      MatchingAppend(a, init, tag, api);
      assert (a + b)[..|a + b| - 1] == a + init;
      assert (a + b)[|a + b| - 1] == b[|b| - 1];
    }
  }

  lemma {:induction false} MatchingMembers(rows: seq<Event>, tag: EventTag, api: Option<ApiEventType>)
    ensures forall e :: e in Matching(rows, tag, api) <==> e in rows && MatchesLookup(e, tag, api)
    decreases |rows|
  {
    if rows != [] {
      MatchingMembers(rows[..|rows| - 1], tag, api);
      assert rows == rows[..|rows| - 1] + [rows[|rows| - 1]];
    }
  }

  /** Deactivating the (at most one) pending PHASE row leaves no pending
      PHASE row. */
  lemma MatchingActiveAfterDeactivation(s: seq<Event>, subscriptionId: SubscriptionId, now: Date, pending: seq<Event>)
    requires WellFormed(s)
    requires pending == Matching(ActiveRows(s, subscriptionId, After(now)), PhaseTag, None) && |pending| <= 1
    ensures var s1 := if pending == [] then s else DeactivateIds(s, {pending[0].id});
      Matching(ActiveRows(s1, subscriptionId, After(now)), PhaseTag, None) == []
  {
    if pending != [] {
      assert pending == [pending[0]];
      PendingPhaseDeactivated(s, subscriptionId, now, pending[0]);
    }
  }

  /** Deactivating the one pending PHASE row leaves none among the active rows. */
  lemma PendingPhaseDeactivated(s: seq<Event>, subscriptionId: SubscriptionId, now: Date, p0: Event)
    requires WellFormed(s)
    requires Matching(ActiveRows(s, subscriptionId, After(now)), PhaseTag, None) == [p0]
    ensures Matching(ActiveRows(DeactivateIds(s, {p0.id}), subscriptionId, After(now)), PhaseTag, None) == []
  {
    var s1 := DeactivateIds(s, {p0.id});
    var rows := ActiveRows(s, subscriptionId, After(now));
    var rows1 := ActiveRows(s1, subscriptionId, After(now));
    ActiveRowsMembers(s, subscriptionId, After(now));
    ActiveRowsMembers(s1, subscriptionId, After(now));
    MatchingMembers(rows, PhaseTag, None);
    assert p0 in [p0];
    forall e | e in rows1 ensures !MatchesLookup(e, PhaseTag, None) {
      var i :| 0 <= i < |s1| && s1[i] == e;
      assert s[i].id != p0.id;
      assert s1[i] == s[i];
    }
    MatchingNone(rows1, PhaseTag, None);
  }

  lemma {:induction false} MatchingNone(rows: seq<Event>, tag: EventTag, api: Option<ApiEventType>)
    requires forall e :: e in rows ==> !MatchesLookup(e, tag, api)
    ensures Matching(rows, tag, api) == []
    decreases |rows|
  {
    if rows != [] {
      assert forall e :: e in rows[..|rows| - 1] ==> e in rows;
      MatchingNone(rows[..|rows| - 1], tag, api);
      assert rows[|rows| - 1] in rows;
    }
  }

  // ---------------------------------------------------------------------
  // Undo (uncancel, undo change)
  // ---------------------------------------------------------------------

  /** Undo of a CANCEL or CHANGE: when the subscription has future active
      targets, all of them are deactivated, each input event is stored and
      scheduled, and one requested post is issued for the last input; with no
      target nothing at all happens. */
  function AfterUndo(t: Tables, sub: Subscription, inputs: seq<Event>, target: ApiEventType,
                     transition: TransitionType, now: Date): Tables
    requires inputs != [] || UndoTargets(ActiveRows(t.events, sub.id, After(now)), target) == []
  {
    var targets := UndoTargets(ActiveRows(t.events, sub.id, After(now)), target);
    if targets == [] then t
    else
      var t1 := DeactivateAll(t, IdsOf(targets));
      PostAll(t1.(events := t1.events + Stored(|t.events|, inputs)),
              ScheduleAll(inputs) + [RequestedPost(inputs[|inputs| - 1].id, transition, 0)])
  }

  /** Undo deactivates exactly its targets among the existing rows, never a
      genesis event, and appends the inputs after them. */
  lemma UndoEffect(t: Tables, sub: Subscription, inputs: seq<Event>, target: ApiEventType,
                   transition: TransitionType, now: Date)
    requires WellFormed(t.events)
    requires inputs != [] && (target == Cancel || target == Change)
    ensures var targets := UndoTargets(ActiveRows(t.events, sub.id, After(now)), target);
      var r := AfterUndo(t, sub, inputs, target, transition, now);
      && |r.events| == |t.events| + (if targets == [] then 0 else |inputs|)
      && (forall i :: 0 <= i < |t.events| ==>
            r.events[i] == if t.events[i] in targets then t.events[i].(active := false) else t.events[i])
      && (forall i :: 0 <= i < |t.events| && IsGenesis(t.events[i]) ==> r.events[i] == t.events[i])
      && (targets == [] <==> r == t)
  {
    var rows := ActiveRows(t.events, sub.id, After(now));
    var targets := UndoTargets(rows, target);
    ActiveRowsMembers(t.events, sub.id, After(now));
    UndoTargetsMembers(rows, target);
    if targets != [] {
      DeactivateRowsEffect(t.events, targets);
      var r := AfterUndo(t, sub, inputs, target, transition, now);
      assert r.events[..|t.events|] == DeactivateIds(t.events, IdsOf(targets));
      assert |r.outbox| > |t.outbox|;
    }
  }

  /** Deactivating rows of a table by their ids touches exactly those rows. */
  lemma DeactivateRowsEffect(s: seq<Event>, rows: seq<Event>)
    requires WellFormed(s)
    requires forall e :: e in rows ==> e in s
    ensures forall i :: 0 <= i < |s| ==>
              DeactivateIds(s, IdsOf(rows))[i] == if s[i] in rows then s[i].(active := false) else s[i]
  {
    forall i | 0 <= i < |s|
      ensures s[i].id in IdsOf(rows) <==> s[i] in rows
    {
      if s[i].id in IdsOf(rows) {
        var j :| 0 <= j < |rows| && rows[j].id == s[i].id;
        assert rows[j] in rows;
        var k :| 0 <= k < |s| && s[k] == rows[j];
      }
      if s[i] in rows {
        var j :| 0 <= j < |rows| && rows[j] == s[i];
      }
    }
  }

  // ---------------------------------------------------------------------
  // Change plan
  // ---------------------------------------------------------------------

  /** What the caller of changePlan must supply: a first input that is an
      API CHANGE of this subscription, a subscription with active events,
      a first event carrying an API type when the change falls on its date,
      and one cancel event per add-on to cancel. */
  predicate ChangePlanReady(t: Tables, sub: Subscription, inputs: seq<Event>, toCancel: seq<Subscription>, cancelEvents: seq<Event>) {
    && inputs != []
    && IsApi(inputs[0], Change)
    && inputs[0].subscriptionId == sub.id
    && ActiveRows(t.events, sub.id, AnyDate) != []
    && (FirstOf(ActiveRows(t.events, sub.id, AnyDate)).effectiveDate == inputs[0].effectiveDate ==>
          FirstOf(ActiveRows(t.events, sub.id, AnyDate)).kind.ApiUser?)
    && |cancelEvents| >= |toCancel|
  }

  /** The events changePlan writes, after the possible genesis rewrite. */
  function ChangeWrites(t: Tables, sub: Subscription, inputs: seq<Event>): seq<Event>
    requires inputs != [] && ActiveRows(t.events, sub.id, AnyDate) != []
    requires FirstOf(ActiveRows(t.events, sub.id, AnyDate)).effectiveDate == inputs[0].effectiveDate ==>
               FirstOf(ActiveRows(t.events, sub.id, AnyDate)).kind.ApiUser?
  {
    ChangePlanInputs(FirstOf(ActiveRows(t.events, sub.id, AnyDate)), inputs)
  }

  /** Posts for the written events: each already-effective bus event gets an
      effective post with sequence id 0, every other one is scheduled. */
  function ChangeEventPosts(replay: Replay, sub: Subscription, writes: seq<Event>, now: Date): seq<Post>
    decreases |writes|
  {
    if writes == [] then []
    else
      var last := writes[|writes| - 1];
      ChangeEventPosts(replay, sub, writes[..|writes| - 1], now) + BusOrSchedule(replay, sub, last, IsBusEvent(last, now), 0)
  }

  lemma ChangeEventPostsStep(replay: Replay, sub: Subscription, writes: seq<Event>, k: nat, now: Date)
    requires k < |writes|
    ensures ChangeEventPosts(replay, sub, writes[..k + 1], now) ==
            ChangeEventPosts(replay, sub, writes[..k], now) + BusOrSchedule(replay, sub, writes[k], IsBusEvent(writes[k], now), 0)
  {
    assert writes[..k + 1][..k] == writes[..k] && writes[..k + 1][k] == writes[k];
  }

  /** The event table once changePlan has deactivated what it replaces. */
  function ChangeDeactivated(t: Tables, sub: Subscription, inputs: seq<Event>): seq<Event>
    requires inputs != [] && ActiveRows(t.events, sub.id, AnyDate) != []
  {
    var active := ActiveRows(t.events, sub.id, AnyDate);
    var first := FirstOf(active);
    var onStart := first.effectiveDate == inputs[0].effectiveDate;
    var s1 := if onStart then DeactivateIds(t.events, {first.id}) else t.events;
    DeactivateIds(s1, DeactivationIds(ActiveRows(t.events, sub.id, AtOrAfter(inputs[0].effectiveDate)), false))
  }

  /** Change of plan, before the cascade to add-ons. */
  function AfterChangeOwn(replay: Replay, t: Tables, sub: Subscription, inputs: seq<Event>, now: Date): Tables
    requires inputs != [] && ActiveRows(t.events, sub.id, AnyDate) != []
    requires FirstOf(ActiveRows(t.events, sub.id, AnyDate)).effectiveDate == inputs[0].effectiveDate ==>
               FirstOf(ActiveRows(t.events, sub.id, AnyDate)).kind.ApiUser?
  {
    var writes := ChangeWrites(t, sub, inputs);
    t.(events := ChangeDeactivated(t, sub, inputs) + Stored(|t.events|, writes),
       outbox := t.outbox + ChangeEventPosts(replay, sub, writes, now) +
                 [RequestedPost(writes[|writes| - 1].id, ChangeTransition, 0)])
  }

  /** Change of plan, followed by the cancellation of the given add-ons. */
  function AfterChangePlan(replay: Replay, t: Tables, sub: Subscription, inputs: seq<Event>,
                           toCancel: seq<Subscription>, cancelEvents: seq<Event>, now: Date): Tables
    requires ChangePlanReady(t, sub, inputs, toCancel, cancelEvents)
  {
    AfterCancelAll(replay, AfterChangeOwn(replay, t, sub, inputs, now), toCancel, cancelEvents, now)
  }

  /** A change on the subscription's start date retires the genesis event and
      writes in its place a genesis event of the same API type at the same
      date; a later change keeps the genesis event and writes the CHANGE. */
  lemma ChangePlanGenesis(replay: Replay, t: Tables, sub: Subscription, inputs: seq<Event>, now: Date)
    requires WellFormed(t.events)
    requires inputs != [] && IsApi(inputs[0], Change) && ActiveRows(t.events, sub.id, AnyDate) != []
    requires IsGenesis(FirstOf(ActiveRows(t.events, sub.id, AnyDate)))
    ensures var first := FirstOf(ActiveRows(t.events, sub.id, AnyDate));
      var r := AfterChangeOwn(replay, t, sub, inputs, now);
      && |r.events| == |t.events| + |inputs|
      && (forall i :: 0 <= i < |t.events| && t.events[i] == first ==>
            (r.events[i].active <==> first.effectiveDate != inputs[0].effectiveDate))
      && (first.effectiveDate == inputs[0].effectiveDate ==>
            r.events[|t.events|].kind == first.kind && r.events[|t.events|].effectiveDate == first.effectiveDate)
      && (first.effectiveDate != inputs[0].effectiveDate ==> r.events[|t.events|].kind == ApiUser(Change))
  {
    var active := ActiveRows(t.events, sub.id, AnyDate);
    var first := FirstOf(active);
    FirstOfIsFirst(active);
    ActiveRowsMembers(t.events, sub.id, AnyDate);
    var onStart := first.effectiveDate == inputs[0].effectiveDate;
    ChangePlanInputsShape(first, inputs);
    var writes := ChangeWrites(t, sub, inputs);
    var rows := ActiveRows(t.events, sub.id, AtOrAfter(inputs[0].effectiveDate));
    var s1 := if onStart then DeactivateIds(t.events, {first.id}) else t.events;
    var ids := DeactivationIds(rows, false);
    var r := AfterChangeOwn(replay, t, sub, inputs, now);
    assert r.events == DeactivateIds(s1, ids) + Stored(|t.events|, writes);
    assert r.events[|t.events|] == writes[0].(totalOrdering := |t.events| + 1);
    assert first in active;
    ScanSkipsRow(t.events, sub.id, AtOrAfter(inputs[0].effectiveDate), first);
  }

  /** A row of the table that the scan does not select, or that the
      deactivation filter skips, keeps its id out of the deactivated ids. */
  lemma ScanSkipsRow(s: seq<Event>, subscriptionId: SubscriptionId, window: Window, e: Event)
    requires WellFormed(s) && e in s
    requires !Selected(e, subscriptionId, window) || !ShouldDeactivate(e, false)
    ensures e.id !in DeactivationIds(ActiveRows(s, subscriptionId, window), false)
  {
    var rows := ActiveRows(s, subscriptionId, window);
    if e.id in DeactivationIds(rows, false) {
      var j :| 0 <= j < |rows| && ShouldDeactivate(rows[j], false) && rows[j].id == e.id;
      ActiveRowsMembers(s, subscriptionId, window);
      assert rows[j] in s;
      var k :| 0 <= k < |s| && s[k] == rows[j];
      assert false;
    }
  }

  /** A change of plan deactivates every active event of the subscription at
      or after the change date that is neither a genesis event nor a BCD or
      quantity update, and leaves every other existing row, apart from the
      first event it may retire, as it was. */
  lemma ChangePlanClearsFuture(replay: Replay, t: Tables, sub: Subscription, inputs: seq<Event>, now: Date)
    requires WellFormed(t.events)
    requires inputs != [] && ActiveRows(t.events, sub.id, AnyDate) != []
    requires FirstOf(ActiveRows(t.events, sub.id, AnyDate)).effectiveDate == inputs[0].effectiveDate ==>
               FirstOf(ActiveRows(t.events, sub.id, AnyDate)).kind.ApiUser?
    ensures var r := AfterChangeOwn(replay, t, sub, inputs, now);
      forall i :: 0 <= i < |t.events| && t.events[i].active && t.events[i].subscriptionId == sub.id &&
            t.events[i].effectiveDate >= inputs[0].effectiveDate && !IsGenesis(t.events[i]) &&
            t.events[i].kind != BcdUpdate && t.events[i].kind != QuantityUpdate
            ==> !r.events[i].active
    ensures var r := AfterChangeOwn(replay, t, sub, inputs, now);
      forall i :: 0 <= i < |t.events| && t.events[i] != FirstOf(ActiveRows(t.events, sub.id, AnyDate)) &&
            (!t.events[i].active || t.events[i].subscriptionId != sub.id ||
             t.events[i].effectiveDate < inputs[0].effectiveDate || IsGenesis(t.events[i]) ||
             t.events[i].kind == BcdUpdate || t.events[i].kind == QuantityUpdate)
            ==> r.events[i] == t.events[i]
  {
    var rows := ActiveRows(t.events, sub.id, AtOrAfter(inputs[0].effectiveDate));
    ActiveRowsMembers(t.events, sub.id, AtOrAfter(inputs[0].effectiveDate));
    var ids := DeactivationIds(rows, false);
    var r := AfterChangeOwn(replay, t, sub, inputs, now);
    assert r.events[..|t.events|] == ChangeDeactivated(t, sub, inputs);
    forall i | 0 <= i < |t.events| && t.events[i].active && t.events[i].subscriptionId == sub.id &&
               t.events[i].effectiveDate >= inputs[0].effectiveDate && !IsGenesis(t.events[i]) &&
               t.events[i].kind != BcdUpdate && t.events[i].kind != QuantityUpdate
      ensures !r.events[i].active
    {
      assert t.events[i] in rows;
      var j :| 0 <= j < |rows| && rows[j] == t.events[i];
      assert t.events[i].id in ids;
      assert r.events[i] == ChangeDeactivated(t, sub, inputs)[i];
    }
    forall i | 0 <= i < |t.events| && t.events[i] != FirstOf(ActiveRows(t.events, sub.id, AnyDate)) &&
               (!t.events[i].active || t.events[i].subscriptionId != sub.id ||
                t.events[i].effectiveDate < inputs[0].effectiveDate || IsGenesis(t.events[i]) ||
                t.events[i].kind == BcdUpdate || t.events[i].kind == QuantityUpdate)
      ensures r.events[i] == t.events[i]
    {
      ChangePlanKeepsRow(t, sub, inputs, i);
      assert r.events[i] == ChangeDeactivated(t, sub, inputs)[i];
    }
  }

  /** One existing row outside the change's reach: it is not the retired
      first event and not a row the scan deactivates. */
  lemma ChangePlanKeepsRow(t: Tables, sub: Subscription, inputs: seq<Event>, i: nat)
    requires WellFormed(t.events)
    requires inputs != [] && ActiveRows(t.events, sub.id, AnyDate) != []
    requires i < |t.events| && t.events[i] != FirstOf(ActiveRows(t.events, sub.id, AnyDate))
    requires !t.events[i].active || t.events[i].subscriptionId != sub.id ||
             t.events[i].effectiveDate < inputs[0].effectiveDate || IsGenesis(t.events[i]) ||
             t.events[i].kind == BcdUpdate || t.events[i].kind == QuantityUpdate
    ensures ChangeDeactivated(t, sub, inputs)[i] == t.events[i]
  {
    var active := ActiveRows(t.events, sub.id, AnyDate);
    var first := FirstOf(active);
    FirstOfIsFirst(active);
    ActiveRowsMembers(t.events, sub.id, AnyDate);
    assert first in active;
    var f :| 0 <= f < |t.events| && t.events[f] == first;
    assert t.events[i].id != first.id;
    assert t.events[i] in t.events;
    var rows := ActiveRows(t.events, sub.id, AtOrAfter(inputs[0].effectiveDate));
    ScanSkipsRow(t.events, sub.id, AtOrAfter(inputs[0].effectiveDate), t.events[i]);
    var s1 := if first.effectiveDate == inputs[0].effectiveDate then DeactivateIds(t.events, {first.id}) else t.events;
    assert s1[i] == t.events[i];
    assert ChangeDeactivated(t, sub, inputs) == DeactivateIds(s1, DeactivationIds(rows, false));
  }

  /** A change of plan issues its one CHANGE requested post last, for the
      last input event. */
  lemma ChangePlanRequested(replay: Replay, t: Tables, sub: Subscription, inputs: seq<Event>, now: Date)
    requires inputs != [] && ActiveRows(t.events, sub.id, AnyDate) != []
    requires FirstOf(ActiveRows(t.events, sub.id, AnyDate)).effectiveDate == inputs[0].effectiveDate ==>
               FirstOf(ActiveRows(t.events, sub.id, AnyDate)).kind.ApiUser?
    ensures var r := AfterChangeOwn(replay, t, sub, inputs, now);
      && |r.outbox| > |t.outbox| && r.outbox[..|t.outbox|] == t.outbox
      && r.outbox[|r.outbox| - 1] == RequestedPost(inputs[|inputs| - 1].id, ChangeTransition, 0)
      && CountRequested(r.outbox[|t.outbox|..]) == 1
  {
    var writes := ChangeWrites(t, sub, inputs);
    ChangeEventPostsNoRequested(replay, sub, writes, now);
    RequestedLast(t.outbox, ChangeEventPosts(replay, sub, writes, now), RequestedPost(writes[|writes| - 1].id, ChangeTransition, 0));
    assert writes[|writes| - 1].id == inputs[|inputs| - 1].id by {
      if |inputs| > 1 { assert writes[|writes| - 1] == writes[1..][|writes| - 2]; }
    }
  }

  // ---------------------------------------------------------------------
  // Creation of subscriptions with their initial events
  // ---------------------------------------------------------------------

  /** The initial events of a subscription, the empty list when none is given. */
  function InitialOf(initial: map<SubscriptionId, seq<Event>>, id: SubscriptionId): seq<Event> {
    if id in initial then initial[id] else []
  }

  function Flatten(groups: seq<seq<Subscription>>): seq<Subscription>
    decreases |groups|
  {
    if groups == [] then [] else Flatten(groups[..|groups| - 1]) + groups[|groups| - 1]
  }

  /** All initial events of a batch, subscription after subscription. */
  function AllInitial(subs: seq<Subscription>, initial: map<SubscriptionId, seq<Event>>): seq<Event>
    decreases |subs|
  {
    if subs == [] then [] else AllInitial(subs[..|subs| - 1], initial) + InitialOf(initial, subs[|subs| - 1].id)
  }

  /** One subscription of a creation batch: the subscription row, then its
      initial events each with its effective post or schedule, then the
      CREATE requested post for its latest initial event, the two counters
      threaded from the previous subscription. */
  function CreateOne(replay: Replay, t: Tables, effSeq: int, reqSeq: int, sub: Subscription,
                     evs: seq<Event>, now: Date, group: bool): (Tables, int, int) {
    var (p, eff) := InitialEventPosts(replay, sub, evs, now, group, effSeq);
    var (q, req) := RequestedCreatePost(evs, group, reqSeq);
    (t.(subscriptions := t.subscriptions + [sub],
        events := t.events + Stored(|t.events|, evs),
        outbox := t.outbox + p + q), eff, req)
  }

  /** A whole creation batch, with both counters starting at 0. */
  function CreateRun(replay: Replay, t: Tables, subs: seq<Subscription>, initial: map<SubscriptionId, seq<Event>>,
                     now: Date, group: bool): (Tables, int, int)
    decreases |subs|
  {
    if subs == [] then (t, 0, 0)
    else
      var (t1, eff, req) := CreateRun(replay, t, subs[..|subs| - 1], initial, now, group);
      var last := subs[|subs| - 1];
      CreateOne(replay, t1, eff, req, last, InitialOf(initial, last.id), now, group)
  }

  function CountRequested(posts: seq<Post>): nat
    decreases |posts|
  {
    if posts == [] then 0 else (if posts[0].RequestedPost? then 1 else 0) + CountRequested(posts[1..])
  }

  lemma {:induction false} CountRequestedAppend(a: seq<Post>, b: seq<Post>)
    ensures CountRequested(a + b) == CountRequested(a) + CountRequested(b)
    decreases |a|
  {
    if a != [] {
      assert (a + b)[1..] == a[1..] + b;
      CountRequestedAppend(a[1..], b);
    } else {
      assert a + b == b;
    }
  }

  lemma CountEffectiveNoEffective(posts: seq<Post>)
    requires forall i :: 0 <= i < |posts| ==> !posts[i].EffectivePost?
    ensures CountEffective(posts) == 0
    decreases |posts|
  {
    if posts != [] { CountEffectiveNoEffective(posts[1..]); }
  }

  lemma CountRequestedNoRequested(posts: seq<Post>)
    requires forall i :: 0 <= i < |posts| ==> !posts[i].RequestedPost?
    ensures CountRequested(posts) == 0
    decreases |posts|
  {
    if posts != [] { CountRequestedNoRequested(posts[1..]); }
  }

  /** Posts without a requested post, then one requested post: the outbox
      grows by exactly one requested post, issued last. */
  lemma RequestedLast(before: seq<Post>, posts: seq<Post>, req: Post)
    requires CountRequested(posts) == 0 && req.RequestedPost?
    ensures var o := before + posts + [req];
      && |o| > |before| && o[..|before|] == before && o[|o| - 1] == req
      && CountRequested(o[|before|..]) == 1
  {
    var o := before + posts + [req];
    assert o[|before|..] == posts + [req];
    CountRequestedAppend(posts, [req]);
    assert [req][1..] == [];
  }

  /** The posts for a change's written events hold no requested post. */
  lemma {:induction false} ChangeEventPostsNoRequested(replay: Replay, sub: Subscription, writes: seq<Event>, now: Date)
    ensures CountRequested(ChangeEventPosts(replay, sub, writes, now)) == 0
    decreases |writes|
  {
    if writes != [] {
      var init := writes[..|writes| - 1];
      var last := writes[|writes| - 1];
      var p := BusOrSchedule(replay, sub, last, IsBusEvent(last, now), 0);
      ChangeEventPostsNoRequested(replay, sub, init, now);
      CountRequestedNoRequested(p);
      CountRequestedAppend(ChangeEventPosts(replay, sub, init, now), p);
    }
  }

  lemma InitialPostsNoRequested(replay: Replay, sub: Subscription, evs: seq<Event>, now: Date, group: bool, effSeq: int)
    ensures CountRequested(InitialEventPosts(replay, sub, evs, now, group, effSeq).0) == 0
    decreases |evs|
  {
    if evs != [] {
      var e := evs[0];
      var bus := IsBusEvent(e, now);
      var seqId := if bus then effSeq else 0;
      var p := if !bus || !group || seqId == 0 then BusOrSchedule(replay, sub, e, bus, seqId) else [];
      var nextSeq := if bus then effSeq + 1 else effSeq;
      InitialPostsNoRequested(replay, sub, evs[1..], now, group, nextSeq);
      CountRequestedNoRequested(p);
      CountRequestedAppend(p, InitialEventPosts(replay, sub, evs[1..], now, group, nextSeq).0);
    }
  }

  /** What the grouped batch has sent so far: sequence ids all 0, at most one
      post of each kind, none of a kind while its counter is still 0. */
  predicate GroupedSoFar(sent: seq<Post>, eff: int, req: int) {
    && SeqIdsZero(sent)
    && CountEffective(sent) <= 1 && (eff == 0 ==> CountEffective(sent) == 0) && eff >= 0
    && CountRequested(sent) <= 1 && (req == 0 ==> CountRequested(sent) == 0) && req >= 0
  }

  lemma GroupedStep(before: seq<Post>, p: seq<Post>, q: seq<Post>, eff: int, req: int, eff2: int, req2: int)
    requires GroupedSoFar(before, eff, req)
    requires SeqIdsZero(p) && eff2 >= eff && CountRequested(p) == 0
    requires CountEffective(p) <= (if eff == 0 then 1 else 0) && (CountEffective(p) == 1 ==> eff2 >= 1)
    requires (q == [] && req2 == req) || (|q| == 1 && q[0].RequestedPost? && q[0].seqId == 0 && req == 0 && req2 == 1)
    ensures GroupedSoFar(before + p + q, eff2, req2)
  {
    SeqIdsZeroAppend(before, p);
    SeqIdsZeroAppend(before + p, q);
    CountEffectiveAppend(before, p);
    CountEffectiveAppend(before + p, q);
    CountRequestedAppend(before, p);
    CountRequestedAppend(before + p, q);
    if q != [] {
      assert q == [q[0]] && q[1..] == [];
    }
  }

  /** With grouping on, a whole creation batch sends at most one effective
      post and at most one requested post, both with sequence id 0. */
  lemma {:induction false} GroupedCreateRun(replay: Replay, t: Tables, subs: seq<Subscription>,
                                            initial: map<SubscriptionId, seq<Event>>, now: Date)
    ensures var (r, eff, req) := CreateRun(replay, t, subs, initial, now, true);
      && |r.outbox| >= |t.outbox|
      && r.outbox[..|t.outbox|] == t.outbox
      && GroupedSoFar(r.outbox[|t.outbox|..], eff, req)
    decreases |subs|
  {
    if subs == [] {
      assert t.outbox[|t.outbox|..] == [];
    } else {
      var prev := CreateRun(replay, t, subs[..|subs| - 1], initial, now, true);
      GroupedCreateRun(replay, t, subs[..|subs| - 1], initial, now);
      var last := subs[|subs| - 1];
      GroupedCreateOne(replay, t, prev.0, prev.1, prev.2, last, InitialOf(initial, last.id), now);
    }
  }

  /** One more subscription of a grouped batch keeps the batch's posts grouped. */
  lemma GroupedCreateOne(replay: Replay, t: Tables, t1: Tables, eff: int, req: int, last: Subscription,
                         evs: seq<Event>, now: Date)
    requires |t1.outbox| >= |t.outbox| && t1.outbox[..|t.outbox|] == t.outbox
    requires GroupedSoFar(t1.outbox[|t.outbox|..], eff, req)
    ensures var c := CreateOne(replay, t1, eff, req, last, evs, now, true);
      && |c.0.outbox| >= |t.outbox|
      && c.0.outbox[..|t.outbox|] == t.outbox
      && GroupedSoFar(c.0.outbox[|t.outbox|..], c.1, c.2)
  {
    var ip := InitialEventPosts(replay, last, evs, now, true, eff);
    var rp := RequestedCreatePost(evs, true, req);
    GroupedInitialPosts(replay, last, evs, now, eff);
    InitialPostsNoRequested(replay, last, evs, now, true, eff);
    GroupedStep(t1.outbox[|t.outbox|..], ip.0, rp.0, eff, req, ip.1, rp.1);
    OutboxExtended(t.outbox, t1.outbox, ip.0, rp.0);
  }

  /** Appending to an outbox that extends `o0` still extends it, by the old
      extension followed by the new posts. */
  lemma OutboxExtended(o0: seq<Post>, o1: seq<Post>, p: seq<Post>, q: seq<Post>)
    requires |o1| >= |o0| && o1[..|o0|] == o0
    ensures |o1 + p + q| >= |o0| && (o1 + p + q)[..|o0|] == o0
    ensures (o1 + p + q)[|o0|..] == o1[|o0|..] + p + q
  {
  }

  lemma {:induction false} FlattenAppend(a: seq<seq<Subscription>>, b: seq<seq<Subscription>>)
    ensures Flatten(a + b) == Flatten(a) + Flatten(b)
    decreases |b|
  {
    if b == [] {
      assert a + b == a;
    } else {
      var init := b[..|b| - 1];
      FlattenAppend(a, init);
      assert (a + b)[..|a + b| - 1] == a + init && (a + b)[|a + b| - 1] == b[|b| - 1];
      ConcatAssoc(Flatten(a), Flatten(init), b[|b| - 1]);
    }
  }

  /** The j-th subscription of the i-th group sits right after the
      flattened groups before it. */
  lemma FlattenStep(groups: seq<seq<Subscription>>, i: nat, j: nat)
    requires i < |groups| && j < |groups[i]|
    ensures var n := |Flatten(groups[..i])| + j;
      n < |Flatten(groups)| && Flatten(groups)[n] == groups[i][j]
  {
    assert groups == groups[..i + 1] + groups[i + 1..];
    FlattenAppend(groups[..i + 1], groups[i + 1..]);
    assert groups[..i + 1][..i] == groups[..i];
    var before := Flatten(groups[..i]);
    assert Flatten(groups) == before + groups[i] + Flatten(groups[i + 1..]);
    assert (before + groups[i] + Flatten(groups[i + 1..]))[|before| + j] == groups[i][j];
  }

  lemma FlattenNext(groups: seq<seq<Subscription>>, i: nat)
    requires i < |groups|
    ensures |Flatten(groups[..i + 1])| == |Flatten(groups[..i])| + |groups[i]| <= |Flatten(groups)|
  {
    assert groups == groups[..i + 1] + groups[i + 1..];
    FlattenAppend(groups[..i + 1], groups[i + 1..]);
    assert groups[..i + 1][..i] == groups[..i];
  }

  lemma {:induction false} AllInitialAppend(a: seq<Subscription>, b: seq<Subscription>, initial: map<SubscriptionId, seq<Event>>)
    ensures AllInitial(a + b, initial) == AllInitial(a, initial) + AllInitial(b, initial)
    decreases |b|
  {
    if b == [] {
      assert a + b == a;
    } else {
      var init := b[..|b| - 1];
      AllInitialAppend(a, init, initial);
      assert (a + b)[..|a + b| - 1] == a + init && (a + b)[|a + b| - 1] == b[|b| - 1];
      ConcatAssoc(AllInitial(a, initial), AllInitial(init, initial), InitialOf(initial, b[|b| - 1].id));
    }
  }

  /** A creation batch appends exactly its subscriptions, in order, and
      touches no bundle. */
  lemma {:induction false} CreateRunRows(replay: Replay, t: Tables, subs: seq<Subscription>,
                                         initial: map<SubscriptionId, seq<Event>>, now: Date, group: bool)
    ensures var r := CreateRun(replay, t, subs, initial, now, group).0;
      r.subscriptions == t.subscriptions + subs && r.bundles == t.bundles
    decreases |subs|
  {
    if subs != [] {
      var init := subs[..|subs| - 1];
      CreateRunRows(replay, t, init, initial, now, group);
      assert subs == init + [subs[|subs| - 1]];
    }
  }

  /** The results of a creation batch after each prefix of `subs`, the
      empty one first. */
  ghost function CreateRuns(replay: Replay, t: Tables, subs: seq<Subscription>, initial: map<SubscriptionId, seq<Event>>,
                            now: Date, group: bool): (r: seq<(Tables, int, int)>)
    ensures |r| == |subs| + 1
    decreases |subs|
  {
    if subs == [] then [(t, 0, 0)]
    else CreateRuns(replay, t, subs[..|subs| - 1], initial, now, group) + [CreateRun(replay, t, subs, initial, now, group)]
  }

  lemma {:induction false} CreateRunsAt(replay: Replay, t: Tables, subs: seq<Subscription>,
                                        initial: map<SubscriptionId, seq<Event>>, now: Date, group: bool, k: nat)
    requires k <= |subs|
    ensures CreateRuns(replay, t, subs, initial, now, group)[k] == CreateRun(replay, t, subs[..k], initial, now, group)
    decreases |subs|
  {
    if k < |subs| {
      var init := subs[..|subs| - 1];
      CreateRunsAt(replay, t, init, initial, now, group, k);
      assert init[..k] == subs[..k];
    } else {
      assert subs[..k] == subs;
    }
  }

  /** The step of a loop creating `subs` in order. */
  lemma CreateRunStep(replay: Replay, t: Tables, subs: seq<Subscription>, n: nat,
                      initial: map<SubscriptionId, seq<Event>>, now: Date, group: bool, t1: Tables, eff: int, req: int)
    requires n < |subs| && (t1, eff, req) == CreateRun(replay, t, subs[..n], initial, now, group)
    ensures CreateRun(replay, t, subs[..n + 1], initial, now, group) ==
              CreateOne(replay, t1, eff, req, subs[n], InitialOf(initial, subs[n].id), now, group)
  {
    assert subs[..n + 1][..n] == subs[..n];
  }

  lemma AllInitialStep(subs: seq<Subscription>, n: nat, initial: map<SubscriptionId, seq<Event>>)
    requires n < |subs|
    ensures AllInitial(subs[n..], initial) == InitialOf(initial, subs[n].id) + AllInitial(subs[n + 1..], initial)
    ensures AllInitial(subs[..n + 1], initial) == AllInitial(subs[..n], initial) + InitialOf(initial, subs[n].id)
  {
    assert subs[n..] == [subs[n]] + subs[n + 1..];
    AllInitialAppend([subs[n]], subs[n + 1..], initial);
    assert [subs[n]][..0] == [];
    assert subs[..n + 1][..n] == subs[..n];
  }

  /** Past the initial events of the first `n` subscriptions come those of
      the n-th, then those of the rest. */
  lemma AllInitialSplit(subs: seq<Subscription>, n: nat, initial: map<SubscriptionId, seq<Event>>)
    requires n < |subs|
    ensures var all := AllInitial(subs, initial);
      var k := |AllInitial(subs[..n], initial)|;
      var evs := InitialOf(initial, subs[n].id);
      && k + |evs| <= |all|
      && all[k..] == evs + all[k + |evs|..]
      && all[k + |evs|..] == AllInitial(subs[n + 1..], initial)
  {
    var done := AllInitial(subs[..n], initial);
    var evs := InitialOf(initial, subs[n].id);
    var rest := AllInitial(subs[n + 1..], initial);
    assert subs[..n] + subs[n..] == subs;
    AllInitialAppend(subs[..n], subs[n..], initial);
    AllInitialStep(subs, n, initial);
    ConcatAssoc(done, evs, rest);
    assert AllInitial(subs, initial) == done + evs + rest;
    ConcatSlices(done, evs, rest);
  }

  /** What the step of a creation loop needs about the batch's next
      subscription, once `created` holds the rows written so far: its
      initial events come next in `all`, and the next prefix's result is
      CreateOne applied to this one's. */
  lemma BatchEntryFacts(replay: Replay, base: Tables, subs: seq<Subscription>, all: seq<Event>,
                        runs: seq<(Tables, int, int)>, n: nat,
                        initial: map<SubscriptionId, seq<Event>>, now: Date, group: bool, created: seq<Event>)
    requires n < |subs| && all == AllInitial(subs, initial) && runs == CreateRuns(replay, base, subs, initial, now, group)
    requires runs[n].0.events == base.events + created
    ensures var evs := InitialOf(initial, subs[n].id);
      && |created| + |evs| <= |all|
      && all[|created|..] == evs + all[|created| + |evs|..]
      && runs[n + 1] == CreateOne(replay, runs[n].0, runs[n].1, runs[n].2, subs[n], evs, now, group)
  {
    CreateRunsAt(replay, base, subs, initial, now, group, n);
    CreateRunsAt(replay, base, subs, initial, now, group, n + 1);
    var (t, eff, req) := runs[n];
    CreateRunStep(replay, base, subs, n, initial, now, group, t, eff, req);
    CreateRunEvents(replay, base, subs[..n], initial, now, group);
    assert |created| == |AllInitial(subs[..n], initial)|;
    AllInitialSplit(subs, n, initial);
  }

  lemma CreateRunLastEvents(replay: Replay, t: Tables, subs: seq<Subscription>,
                             initial: map<SubscriptionId, seq<Event>>, now: Date, group: bool)
    requires subs != []
    ensures var before := CreateRun(replay, t, subs[..|subs| - 1], initial, now, group).0.events;
      CreateRun(replay, t, subs, initial, now, group).0.events ==
        before + Stored(|before|, InitialOf(initial, subs[|subs| - 1].id))
  {
  }

  /** A creation batch stores the copies of all initial events, in order. */
  lemma {:induction false} CreateRunEvents(replay: Replay, t: Tables, subs: seq<Subscription>,
                                           initial: map<SubscriptionId, seq<Event>>, now: Date, group: bool)
    ensures CreateRun(replay, t, subs, initial, now, group).0.events == t.events + Stored(|t.events|, AllInitial(subs, initial))
    decreases |subs|
  {
    if subs != [] {
      var init := subs[..|subs| - 1];
      var evs := InitialOf(initial, subs[|subs| - 1].id);
      CreateRunEvents(replay, t, init, initial, now, group);
      CreateRunLastEvents(replay, t, subs, initial, now, group);
      StoredExtend(t.events, AllInitial(init, initial), evs, CreateRun(replay, t, init, initial, now, group).0.events,
                   CreateRun(replay, t, subs, initial, now, group).0.events);
    }
  }

  // ---------------------------------------------------------------------
  // Bundle creation and transfer
  // ---------------------------------------------------------------------

  /** The first bundle of the list on this account with exactly this key. */
  function FirstExactBundle(existing: seq<Bundle>, accountId: AccountId, key: string): Option<Bundle>
    decreases |existing|
  {
    if existing == [] then None
    else if existing[0].accountId == accountId && existing[0].externalKey == key then Some(existing[0])
    else FirstExactBundle(existing[1..], accountId, key)
  }

  predicate HasSubscriptions(subscriptions: seq<Subscription>, bundleId: BundleId) {
    exists i :: 0 <= i < |subscriptions| && subscriptions[i].bundleId == bundleId
  }

  /** The bundle the creation may reuse: the first same-account, same-key
      bundle, provided it holds no subscription. */
  function UnusedBundle(t: Tables, bundle: Bundle): Option<Bundle> {
    var found := FirstExactBundle(LikeKeyBundles(t.bundles, bundle.externalKey), bundle.accountId, bundle.externalKey);
    if found.Some? && !HasSubscriptions(t.subscriptions, found.value.id) then found else None
  }

  /** Is the subscription, rebuilt from its active events, CANCELLED? */
  predicate IsCancelled(replay: Replay, t: Tables, sub: Subscription) {
    replay.isCancelled(sub, FilterBaseEvents(ActiveRows(t.events, sub.id, AnyDate)))
  }

  predicate AllCancelled(replay: Replay, t: Tables, subs: seq<Subscription>) {
    forall i :: 0 <= i < |subs| ==> IsCancelled(replay, t, subs[i])
  }

  /** The bundle as stored: its original created date is the first existing
      like-key bundle's created date, when there is one. */
  function NewBundle(existing: seq<Bundle>, bundle: Bundle): Bundle {
    if existing != [] then bundle.(originalCreatedDate := existing[0].createdDate) else bundle
  }

  /** Creation of a bundle for an external key. */
  function AfterCreateBundle(replay: Replay, t: Tables, bundle: Bundle, renameCancelled: bool): Result<(Tables, Bundle)> {
    var unused := UnusedBundle(t, bundle);
    if unused.Some? then Ok((t, unused.value))
    else
      var existing := LikeKeyBundles(t.bundles, bundle.externalKey);
      var subs := NonAddOnsOf(existing, t.subscriptions);
      if !AllCancelled(replay, t, subs) then Err(ActiveBundleKeyExists(bundle.externalKey))
      else
        var renamed := if renameCancelled && subs != [] then RenameBundles(t.bundles, bundle.externalKey, "cncl") else t.bundles;
        var stored := NewBundle(existing, bundle);
        Ok((t.(bundles := renamed + [stored]), stored))
  }

  /** A same-account bundle with exactly the key and no subscription is
      handed back, and nothing changes. */
  lemma CreateBundleReuse(replay: Replay, t: Tables, bundle: Bundle, renameCancelled: bool)
    requires UnusedBundle(t, bundle).Some?
    ensures var r := AfterCreateBundle(replay, t, bundle, renameCancelled);
      && r.Ok? && r.value.0 == t
      && r.value.1 in t.bundles
      && r.value.1.accountId == bundle.accountId && r.value.1.externalKey == bundle.externalKey
      && !HasSubscriptions(t.subscriptions, r.value.1.id)
  {
    var existing := LikeKeyBundles(t.bundles, bundle.externalKey);
    FirstExactBundleFound(existing, bundle.accountId, bundle.externalKey);
    LikeKeyBundlesMembers(t.bundles, bundle.externalKey);
  }

  /** Otherwise, the creation fails with the active-key error exactly when a
      non-ADD_ON subscription of a like-key bundle is not CANCELLED. */
  lemma CreateBundleConflict(replay: Replay, t: Tables, bundle: Bundle, renameCancelled: bool)
    requires UnusedBundle(t, bundle).None?
    ensures var r := AfterCreateBundle(replay, t, bundle, renameCancelled);
      var subs := NonAddOnsOf(LikeKeyBundles(t.bundles, bundle.externalKey), t.subscriptions);
      && (r.Err? <==> exists s :: s in subs && !IsCancelled(replay, t, s))
      && (r.Err? ==> r.error == ActiveBundleKeyExists(bundle.externalKey))
  {
    var subs := NonAddOnsOf(LikeKeyBundles(t.bundles, bundle.externalKey), t.subscriptions);
    if exists s :: s in subs && !IsCancelled(replay, t, s) {
      var s :| s in subs && !IsCancelled(replay, t, s);
      var i :| 0 <= i < |subs| && subs[i] == s;
    }
  }

  /** A successful creation appends the new bundle last, with the first
      like-key bundle's created date as its original created date, leaves
      the event and subscription tables alone, and, when asked to rename
      and the key had subscriptions, leaves no earlier bundle with the key. */
  lemma CreateBundleNew(replay: Replay, t: Tables, bundle: Bundle, renameCancelled: bool)
    requires UnusedBundle(t, bundle).None?
    requires AfterCreateBundle(replay, t, bundle, renameCancelled).Ok?
    ensures var r := AfterCreateBundle(replay, t, bundle, renameCancelled).value;
      var existing := LikeKeyBundles(t.bundles, bundle.externalKey);
      && |r.0.bundles| == |t.bundles| + 1
      && r.0.bundles[|t.bundles|] == r.1
      && r.1 == bundle.(originalCreatedDate := r.1.originalCreatedDate)
      && r.1.originalCreatedDate == (if existing != [] then existing[0].createdDate else bundle.originalCreatedDate)
      && r.0.events == t.events && r.0.subscriptions == t.subscriptions && r.0.outbox == t.outbox
      && (renameCancelled && NonAddOnsOf(existing, t.subscriptions) != [] ==>
            forall i :: 0 <= i < |t.bundles| ==> r.0.bundles[i].externalKey != bundle.externalKey)
      && (!renameCancelled ==> r.0.bundles[..|t.bundles|] == t.bundles)
  {
    RenameBundlesCorrect(t.bundles, bundle.externalKey, "cncl");
  }

  lemma {:induction false} LikeKeyBundlesMembers(bundles: seq<Bundle>, key: string)
    ensures forall b :: b in LikeKeyBundles(bundles, key) <==> b in bundles && LikeKey(b.externalKey, key)
    decreases |bundles|
  {
    if bundles != [] {
      LikeKeyBundlesMembers(bundles[..|bundles| - 1], key);
      assert bundles == bundles[..|bundles| - 1] + [bundles[|bundles| - 1]];
    }
  }

  /** The like-key lookup of non-ADD_ON subscription ids returns the id of
      a subscription exactly when it is not an ADD_ON and its bundle's key is
      the key or was renamed from it. */
  lemma NonAddOnIdsForKey(bundles: seq<Bundle>, subscriptions: seq<Subscription>, key: string)
    ensures forall s :: s in NonAddOnsOf(LikeKeyBundles(bundles, key), subscriptions) <==>
              && s in subscriptions && s.category != AddOn
              && exists b :: b in bundles && b.id == s.bundleId && LikeKey(b.externalKey, key)
    ensures forall s :: s in NonAddOnsOf(LikeKeyBundles(bundles, key), subscriptions) ==>
              s.id in SubscriptionIds(NonAddOnsOf(LikeKeyBundles(bundles, key), subscriptions))
  {
    var like := LikeKeyBundles(bundles, key);
    LikeKeyBundlesMembers(bundles, key);
    NonAddOnsOfMembers(like, subscriptions);
    var found := NonAddOnsOf(like, subscriptions);
    forall s | s in found ensures s.id in SubscriptionIds(found) {
      var k :| 0 <= k < |found| && found[k] == s;
    }
  }

  lemma {:induction false} FirstExactBundleFound(existing: seq<Bundle>, accountId: AccountId, key: string)
    ensures var f := FirstExactBundle(existing, accountId, key);
      f.Some? ==> f.value in existing && f.value.accountId == accountId && f.value.externalKey == key
    ensures FirstExactBundle(existing, accountId, key).None? <==>
              forall b :: b in existing ==> b.accountId != accountId || b.externalKey != key
    decreases |existing|
  {
    if existing != [] {
      FirstExactBundleFound(existing[1..], accountId, key);
      assert existing == [existing[0]] + existing[1..];
    }
  }

  /** One subscription moved by a transfer, with its initial events. */
  datatype SubscriptionTransfer = SubscriptionTransfer(subscription: Subscription, initialEvents: seq<Event>)

  /** Writes the transferred bundle under the destination account, unless
      that account already has a bundle with this key. */
  function AfterTransferData(t: Tables, bundle: Bundle, moved: seq<SubscriptionTransfer>): Tables
    requires forall i :: 0 <= i < |moved| ==> moved[i].initialEvents != []
  {
    if exists b :: b in t.bundles && b.accountId == bundle.accountId && b.externalKey == bundle.externalKey then t
    else AfterTransferSubscriptions(t, moved).(bundles := t.bundles + [bundle])
  }

  /** Per moved subscription: its initial events stored and scheduled, the
      subscription row, then a TRANSFER requested post for its last event. */
  function AfterTransferSubscriptions(t: Tables, moved: seq<SubscriptionTransfer>): (r: Tables)
    requires forall i :: 0 <= i < |moved| ==> moved[i].initialEvents != []
    ensures r.bundles == t.bundles
    decreases |moved|
  {
    if moved == [] then t
    else
      var m := moved[|moved| - 1];
      var t1 := AfterTransferSubscriptions(t, moved[..|moved| - 1]);
      t1.(events := t1.events + Stored(|t1.events|, m.initialEvents),
          subscriptions := t1.subscriptions + [m.subscription],
          outbox := t1.outbox + ScheduleAll(m.initialEvents) +
                    [RequestedPost(m.initialEvents[|m.initialEvents| - 1].id, TransferTransition, 0)])
  }

  /** All initial events of the moved subscriptions, in order. */
  function MovedEvents(moved: seq<SubscriptionTransfer>): seq<Event>
    decreases |moved|
  {
    if moved == [] then [] else MovedEvents(moved[..|moved| - 1]) + moved[|moved| - 1].initialEvents
  }

  lemma {:induction false} MovedEventsAppend(a: seq<SubscriptionTransfer>, b: seq<SubscriptionTransfer>)
    ensures MovedEvents(a + b) == MovedEvents(a) + MovedEvents(b)
    decreases |b|
  {
    if b == [] {
      assert a + b == a;
    } else {
      var init := b[..|b| - 1];
      MovedEventsAppend(a, init);
      assert (a + b)[..|a + b| - 1] == a + init && (a + b)[|a + b| - 1] == b[|b| - 1];
      ConcatAssoc(MovedEvents(a), MovedEvents(init), b[|b| - 1].initialEvents);
    }
  }

  lemma MovedEventsStep(moved: seq<SubscriptionTransfer>, m: nat)
    requires m < |moved|
    ensures MovedEvents(moved[m..]) == moved[m].initialEvents + MovedEvents(moved[m + 1..])
  {
    assert moved[m..] == [moved[m]] + moved[m + 1..];
    MovedEventsAppend([moved[m]], moved[m + 1..]);
    assert [moved[m]][..0] == [];
  }

  /** The whole transfer: cancels in the source bundle (sequence id 0 each),
      release of the key under the "tsf" prefix, then the destination data. */
  function AfterTransfer(replay: Replay, t: Tables, cancelled: seq<Subscription>, cancelEvents: seq<Event>,
                         bundle: Bundle, moved: seq<SubscriptionTransfer>, now: Date): Tables
    requires |cancelEvents| >= |cancelled|
    requires forall i :: 0 <= i < |moved| ==> moved[i].initialEvents != []
  {
    var t1 := AfterTransferCancels(replay, t, cancelled, cancelEvents, now);
    var t2 := t1.(bundles := RenameBundles(t1.bundles, bundle.externalKey, "tsf"));
    AfterTransferData(t2, bundle, moved)
  }

  lemma {:induction false} TransferCancelsKeepBundles(replay: Replay, t: Tables, subs: seq<Subscription>, evs: seq<Event>, now: Date)
    requires |evs| >= |subs|
    ensures AfterTransferCancels(replay, t, subs, evs, now).bundles == t.bundles
    decreases |subs|
  {
    if subs != [] {
      TransferCancelsKeepBundles(replay, AfterCancel(replay, t, subs[0], evs[0], now, 0), subs[1..], evs[1..], now);
    }
  }

  /** Since the source bundle's key is released before the destination is
      written, no bundle carries that exact key any more when the
      destination check runs: a transfer always writes the destination
      bundle, as the last row of the bundle table. */
  lemma TransferAlwaysWritesBundle(replay: Replay, t: Tables, cancelled: seq<Subscription>, cancelEvents: seq<Event>,
                                   bundle: Bundle, moved: seq<SubscriptionTransfer>, now: Date)
    requires |cancelEvents| >= |cancelled|
    requires forall i :: 0 <= i < |moved| ==> moved[i].initialEvents != []
    ensures var r := AfterTransfer(replay, t, cancelled, cancelEvents, bundle, moved, now);
      && |r.bundles| == |t.bundles| + 1
      && r.bundles[|t.bundles|] == bundle
      && forall i :: 0 <= i < |t.bundles| ==> r.bundles[i].externalKey != bundle.externalKey
  {
    var t1 := AfterTransferCancels(replay, t, cancelled, cancelEvents, now);
    TransferCancelsKeepBundles(replay, t, cancelled, cancelEvents, now);
    RenameBundlesCorrect(t1.bundles, bundle.externalKey, "tsf");
    var renamed := RenameBundles(t1.bundles, bundle.externalKey, "tsf");
    forall b | b in renamed ensures b.externalKey != bundle.externalKey {
      var i :| 0 <= i < |renamed| && renamed[i] == b;
    }
  }
}
