/** The subscription store: the event, subscription and bundle tables and the
    outbox of bus posts and scheduled notifications, updated in place by the
    transactional operations. Each operation is proved to leave the tables
    as the matching function of module Transitions says. */
module SubscriptionStore {
  import opened Events
  import opened Collaborators
  import opened EventLog
  import opened Transitions

  class SubscriptionDao {
    /** How subscriptions are rebuilt from their events. */
    const replay: Replay
    /** The event table, in record order. */
    var events: seq<Event>
    var subscriptions: seq<Subscription>
    var bundles: seq<Bundle>
    /** Every bus post and future notification issued, in order. */
    var outbox: seq<Post>

    function State(): Tables
      reads this
    {
      Tables(events, subscriptions, bundles, outbox)
    }

    predicate Valid()
      reads this
    {
      WellFormed(events)
    }

    constructor (replay: Replay)
      ensures Valid() && this.replay == replay
      ensures State() == Tables([], [], [], [])
    {
      this.replay := replay;
      events := [];
      subscriptions := [];
      bundles := [];
      outbox := [];
    }

    // -------------------------------------------------------------------
    // Row and outbox primitives
    // -------------------------------------------------------------------

    /** Stores an event; the store assigns its total ordering. */
    method CreateEvent(e: Event) returns (stored: Event)
      requires Valid() && e.id !in Ids(events)
      modifies this
      ensures Valid() && Ids(events) == old(Ids(events)) + {e.id}
      ensures stored == e.(totalOrdering := |old(events)| + 1)
      ensures State() == InsertEvent(old(State()), e)
      ensures events == old(events) + [stored] && outbox == old(outbox)
      ensures subscriptions == old(subscriptions) && bundles == old(bundles)
    {
      stored := e.(totalOrdering := |events| + 1);
      AppendPreservesWellFormed(events, e);
      IdsAppend(events, stored);
      events := events + [stored];
    }

    method Deactivate(id: EventId)
      requires Valid()
      modifies this
      ensures Valid() && Ids(events) == old(Ids(events))
      ensures State() == DeactivateAll(old(State()), {id})
    {
      DeactivatePreservesWellFormed(events, {id});
      events := DeactivateIds(events, {id});
    }

    /** Deactivation of an event that may be absent: absent means no change. */
    method UnactivateEvent(e: Option<Event>)
      requires Valid()
      modifies this
      ensures Valid() && Ids(events) == old(Ids(events))
      ensures State() == if e.Some? then DeactivateAll(old(State()), {e.value.id}) else old(State())
    {
      if e.Some? {
        Deactivate(e.value.id);
      }
    }

    method RecordFuture(date: Date, id: EventId)
      modifies this
      ensures State() == PostAll(old(State()), [Scheduled(date, id)])
      ensures outbox == old(outbox) + [Scheduled(date, id)] && events == old(events)
      ensures subscriptions == old(subscriptions) && bundles == old(bundles)
    {
      outbox := outbox + [Scheduled(date, id)];
    }

    method NotifyRequested(e: Event, transition: TransitionType, seqId: int)
      modifies this
      ensures State() == PostAll(old(State()), [RequestedPost(e.id, transition, seqId)])
    {
      outbox := outbox + [RequestedPost(e.id, transition, seqId)];
    }

    /** The effective-change post, sent only when the event yields a
        transition of the subscription. */
    method NotifyEffective(sub: Subscription, e: Event, seqId: int)
      modifies this
      ensures State() == PostAll(old(State()), EffectiveNotice(replay, sub, e, seqId))
    {
      if replay.hasTransition(sub, e) {
        outbox := outbox + [EffectivePost(e.id, seqId)];
      }
    }

    /** Posts an effective event on the bus, or schedules a future one. */
    method RecordBusOrFuture(sub: Subscription, e: Event, busEvent: bool, seqId: int)
      modifies this
      ensures State() == PostAll(old(State()), BusOrSchedule(replay, sub, e, busEvent, seqId))
    {
      if busEvent {
        NotifyEffective(sub, e, seqId);
      } else {
        RecordFuture(e.effectiveDate, e.id);
      }
    }

    // -------------------------------------------------------------------
    // Deactivation and the unique future-event lookup
    // -------------------------------------------------------------------

    /** Deactivates the passed rows, skipping genesis events and, unless
        asked to include them, BCD and quantity updates. */
    method UnactivateFutureEvents(rows: seq<Event>, including: bool)
      requires Valid()
      modifies this
      ensures Valid() && Ids(events) == old(Ids(events))
      ensures State() == DeactivateAll(old(State()), DeactivationIds(rows, including))
    {
      var i := 0;
      while i < |rows|
        invariant 0 <= i <= |rows|
        invariant Valid() && Ids(events) == old(Ids(events))
        invariant State() == DeactivateAll(old(State()), DeactivationIds(rows[..i], including))
      {
        var cur := rows[i];
        assert DeactivationIds(rows[..i + 1], including) ==
               DeactivationIds(rows[..i], including) + (if ShouldDeactivate(cur, including) then {cur.id} else {}) by {
          assert rows[..i + 1][i] == cur;
          forall k | 0 <= k < i ensures rows[..i + 1][k] == rows[..i][k] {}
        }
        if cur.kind == ApiUser(Create) || cur.kind == ApiUser(Transfer) {
          // a genesis event is never deactivated
        } else if including || (cur.kind != BcdUpdate && cur.kind != QuantityUpdate) {
          DeactivateIdsUnion(old(events), DeactivationIds(rows[..i], including), {cur.id});
          Deactivate(cur.id);
        }
        i := i + 1;
      }
      assert rows[..i] == rows;
    }

    /** The single active future event of a subscription with this type (and
        API type, when given): none, that event, or an error when there are
        several. */
    method FindFutureEvent(subscriptionId: SubscriptionId, now: Date, tag: EventTag, api: Option<ApiEventType>)
      returns (r: Result<Option<Event>>)
      ensures var m := Matching(ActiveRows(events, subscriptionId, After(now)), tag, api);
        && (r.Err? <==> |m| >= 2)
        && (r.Err? ==> r.error == MultipleFutureEvents(tag))
        && (r == Ok(None) <==> m == [])
        && (|m| == 1 ==> r == Ok(Some(m[0])))
    {
      var rows := ActiveRows(events, subscriptionId, After(now));
      var found: Option<Event> := None;
      var i := 0;
      while i < |rows|
        invariant 0 <= i <= |rows|
        invariant |Matching(rows[..i], tag, api)| <= 1
        invariant found == if Matching(rows[..i], tag, api) == [] then None else Some(Matching(rows[..i], tag, api)[0])
      {
        var cur := rows[i];
        assert rows[..i + 1][..i] == rows[..i] && rows[..i + 1][i] == cur;
        if Tag(cur.kind) == tag && (api.None? || cur.kind == ApiUser(api.value)) {
          if found.Some? {
            MatchingAppend(rows[..i + 1], rows[i + 1..], tag, api);
            assert rows[..i + 1] + rows[i + 1..] == rows;
            r := Err(MultipleFutureEvents(tag));
            return;
          }
          found := Some(cur);
        }
        i := i + 1;
      }
      assert rows[..i] == rows;
      r := Ok(found);
    }

    // -------------------------------------------------------------------
    // Next phase, cancel and expiry
    // -------------------------------------------------------------------

    /** Records the next PHASE or EXPIRED event of a subscription whose
        current phase became due. */
    method CreateNextPhaseOrExpiredEvent(sub: Subscription, ready: Event, next: Event, now: Date)
      returns (error: Option<Error>)
      requires Valid() && next.id !in Ids(events)
      modifies this
      ensures Valid()
      ensures var expected := AfterNextPhase(replay, old(State()), sub, ready, next, now);
        && (expected.Err? ==> error == Some(expected.error) && State() == old(State()))
        && (expected.Ok? ==> error == None && State() == expected.value)
    {
      var pending := FindFutureEvent(sub.id, now, PhaseTag, None);
      if pending.Err? {
        error := Some(pending.error);
        return;
      }
      UnactivateEvent(pending.value);
      RecordNextPhase(sub, ready, next);
      error := None;
    }

    /** Stores the next PHASE or EXPIRED event, schedules it and posts the
        requested and effective notices. */
    method RecordNextPhase(sub: Subscription, ready: Event, next: Event)
      requires Valid() && next.id !in Ids(events)
      modifies this
      ensures Valid()
      ensures State() == PostAll(InsertEvent(old(State()), next),
                                 [Scheduled(next.effectiveDate, next.id), RequestedPost(next.id, PhaseOrExpired(next), 0)] +
                                 EffectiveNotice(replay, sub, ready, 0))
    {
      var stored := CreateEvent(next);
      RecordFuture(next.effectiveDate, next.id);
      if next.kind == Phase {
        NotifyRequested(next, PhaseTransition, 0);
      } else {
        NotifyRequested(next, ExpiredTransition, 0);
      }
      NotifyEffective(sub, ready, 0);
    }

    /** Cancels or expires one subscription with the given event. */
    method CancelOrExpireSubscription(sub: Subscription, ev: Event, now: Date, seqId: int)
      requires Valid() && ev.id !in Ids(events)
      modifies this
      ensures Valid() && Ids(events) == old(Ids(events)) + {ev.id}
      ensures State() == AfterCancel(replay, old(State()), sub, ev, now, seqId)
    {
      UnactivateFutureEvents(ActiveRows(events, sub.id, AtOrAfter(ev.effectiveDate)), true);
      var stored := CreateEvent(ev);
      RecordBusOrFuture(sub, stored, stored.effectiveDate <= now, seqId);
      NotifyRequested(stored, CancelTransition, 0);
    }

    /** Cancels or expires each subscription with its event; the effective
        posts count down to sequence id 0. */
    method CancelOrExpireSubscriptions(subs: seq<Subscription>, evs: seq<Event>, now: Date)
      requires Valid() && |evs| >= |subs| && FreshIds(Ids(events), evs[..|subs|])
      modifies this
      ensures Valid()
      ensures State() == AfterCancelAll(replay, old(State()), subs, evs, now)
    {
      var i := 0;
      while i < |subs|
        invariant 0 <= i <= |subs|
        invariant Valid() && FreshIds(Ids(events), evs[i..|subs|])
        invariant AfterCancelAll(replay, State(), subs[i..], evs[i..], now) == AfterCancelAll(replay, old(State()), subs, evs, now)
      {
        assert subs[i..][0] == subs[i] && subs[i..][1..] == subs[i + 1..];
        assert evs[i..][0] == evs[i] && evs[i..][1..] == evs[i + 1..];
        assert evs[i..|subs|][0] == evs[i] && evs[i..|subs|][1..] == evs[i + 1..|subs|];
        FreshIdsTail(Ids(events), evs[i..|subs|]);
        CancelOrExpireSubscription(subs[i], evs[i], now, |subs| - i - 1);
        i := i + 1;
      }
    }

    method CancelSubscriptions(subs: seq<Subscription>, evs: seq<Event>, now: Date)
      requires Valid() && |evs| >= |subs| && FreshIds(Ids(events), evs[..|subs|])
      modifies this
      ensures Valid()
      ensures State() == AfterCancelAll(replay, old(State()), subs, evs, now)
    {
      CancelOrExpireSubscriptions(subs, evs, now);
    }

    /** Cancels or expires the add-ons when the base event fires, then always
        sends the base event's effective post, numbered after them. */
    method CancelOrExpireSubscriptionOnNotification(sub: Subscription, ev: Event, subs: seq<Subscription>,
                                                    evs: seq<Event>, now: Date)
      requires Valid() && |evs| >= |subs| && FreshIds(Ids(events), evs[..|subs|])
      modifies this
      ensures Valid()
      ensures State() == PostAll(AfterCancelAll(replay, old(State()), subs, evs, now),
                                 EffectiveNotice(replay, sub, ev, |subs|))
    {
      CancelOrExpireSubscriptions(subs, evs, now);
      NotifyEffective(sub, ev, |subs|);
    }

    method NotifyOnBasePlanEvent(sub: Subscription, ev: Event)
      modifies this
      ensures State() == PostAll(old(State()), EffectiveNotice(replay, sub, ev, 0))
    {
      NotifyEffective(sub, ev, 0);
    }

    // -------------------------------------------------------------------
    // Undo and change of plan
    // -------------------------------------------------------------------

    /** Where storing and scheduling `evs` stands after `k` of them. */
    ghost predicate EventsScheduled(base: Tables, evs: seq<Event>, k: nat, later: seq<Event>)
      requires k <= |evs|
      reads this
    {
      && Valid() && FreshIds(Ids(events), evs[k..] + later)
      && events == base.events + Stored(|base.events|, evs[..k])
      && outbox == base.outbox + ScheduleAll(evs[..k])
      && subscriptions == base.subscriptions && bundles == base.bundles
    }

    method CreateAndScheduleAt(evs: seq<Event>, k: nat, ghost later: seq<Event>, ghost base: Tables)
      requires k < |evs| && EventsScheduled(base, evs, k, later)
      modifies this
      ensures EventsScheduled(base, evs, k + 1, later)
    {
      FreshIdsStep(Ids(events), evs, k, later);
      ghost var written := Stored(|base.events|, evs[..k]);
      ghost var sent := ScheduleAll(evs[..k]);
      var stored := evs[k].(totalOrdering := |events| + 1);
      AppendPreservesWellFormed(events, evs[k]);
      IdsAppend(events, stored);
      events := events + [stored];
      outbox := outbox + [Scheduled(evs[k].effectiveDate, evs[k].id)];
      StoredStep(|base.events|, evs, k);
      ScheduleAllStep(evs, k);
      ConcatAssoc(base.events, written, [stored]);
      ConcatAssoc(base.outbox, sent, [Scheduled(evs[k].effectiveDate, evs[k].id)]);
    }

    /** Stores each event and schedules a notification at its date. */
    method CreateAndScheduleEvents(evs: seq<Event>, ghost later: seq<Event>)
      requires Valid() && FreshIds(Ids(events), evs + later)
      modifies this
      ensures Valid() && FreshIds(Ids(events), later)
      ensures State() == old(State()).(events := old(events) + Stored(|old(events)|, evs),
                                       outbox := old(outbox) + ScheduleAll(evs))
    {
      ghost var base := State();
      assert evs[..0] == [] && evs[0..] == evs;
      var k := 0;
      while k < |evs|
        invariant 0 <= k <= |evs|
        invariant EventsScheduled(base, evs, k, later)
      {
        CreateAndScheduleAt(evs, k, later, base);
        k := k + 1;
      }
      assert evs[..k] == evs && evs[k..] == [];
      assert evs[k..] + later == later;
    }

    /** Undoes a pending CANCEL or CHANGE: its future targets are
        deactivated and replaced by the input events. */
    method UndoOperation(sub: Subscription, inputs: seq<Event>, target: ApiEventType,
                         transition: TransitionType, now: Date)
      requires Valid() && FreshIds(Ids(events), inputs)
      requires inputs != [] || UndoTargets(ActiveRows(events, sub.id, After(now)), target) == []
      modifies this
      ensures Valid()
      ensures State() == AfterUndo(old(State()), sub, inputs, target, transition, now)
    {
      var rows := ActiveRows(events, sub.id, After(now));
      var targets := CollectUndoTargets(rows, target);
      if targets != [] {
        DeactivateTargets(targets);
        assert inputs + [] == inputs;
        CreateAndScheduleEvents(inputs, []);
        NotifyRequested(inputs[|inputs| - 1], transition, 0);
      }
    }

    /** The rows an undo deactivates: the pending operation and the phase
        events, in row order. */
    method CollectUndoTargets(rows: seq<Event>, target: ApiEventType) returns (targets: seq<Event>)
      ensures targets == UndoTargets(rows, target)
    {
      targets := [];
      var i := 0;
      while i < |rows|
        invariant 0 <= i <= |rows|
        invariant targets == UndoTargets(rows[..i], target)
      {
        var cur := rows[i];
        assert rows[..i + 1][..i] == rows[..i] && rows[..i + 1][i] == cur;
        if cur.kind == ApiUser(target) {
          targets := targets + [cur];
        } else if cur.kind == Phase {
          targets := targets + [cur];
        }
        i := i + 1;
      }
      assert rows[..i] == rows;
    }

    /** Deactivates each of the given rows, one update at a time. */
    method DeactivateTargets(targets: seq<Event>)
      requires Valid()
      modifies this
      ensures Valid() && Ids(events) == old(Ids(events))
      ensures State() == DeactivateAll(old(State()), IdsOf(targets))
    {
      var j := 0;
      while j < |targets|
        invariant 0 <= j <= |targets|
        invariant Valid() && Ids(events) == old(Ids(events))
        invariant State() == DeactivateAll(old(State()), IdsOf(targets[..j]))
      {
        assert IdsOf(targets[..j + 1]) == IdsOf(targets[..j]) + {targets[j].id} by {
          assert targets[..j + 1][j] == targets[j];
          forall k | 0 <= k < j ensures targets[..j + 1][k] == targets[..j][k] {}
        }
        DeactivateIdsUnion(old(events), IdsOf(targets[..j]), {targets[j].id});
        Deactivate(targets[j].id);
        j := j + 1;
      }
      assert targets[..j] == targets;
    }

    method UncancelSubscription(sub: Subscription, inputs: seq<Event>, now: Date)
      requires Valid() && FreshIds(Ids(events), inputs)
      requires inputs != [] || UndoTargets(ActiveRows(events, sub.id, After(now)), Cancel) == []
      modifies this
      ensures Valid()
      ensures State() == AfterUndo(old(State()), sub, inputs, Cancel, UncancelTransition, now)
    {
      UndoOperation(sub, inputs, Cancel, UncancelTransition, now);
    }

    method UndoChangePlan(sub: Subscription, inputs: seq<Event>, now: Date)
      requires Valid() && FreshIds(Ids(events), inputs)
      requires inputs != [] || UndoTargets(ActiveRows(events, sub.id, After(now)), Change) == []
      modifies this
      ensures Valid()
      ensures State() == AfterUndo(old(State()), sub, inputs, Change, UndoChangeTransition, now)
    {
      UndoOperation(sub, inputs, Change, UndoChangeTransition, now);
    }

    /** Stores one event of a change of plan, posted as effective when it is
        an already-effective bus event and scheduled otherwise. */
    method WriteChangeEvent(sub: Subscription, cur: Event, now: Date)
      requires Valid() && cur.id !in Ids(events)
      modifies this
      ensures Valid() && Ids(events) == old(Ids(events)) + {cur.id}
      ensures State() == PostAll(InsertEvent(old(State()), cur), BusOrSchedule(replay, sub, cur, IsBusEvent(cur, now), 0))
    {
      var stored := CreateEvent(cur);
      var isBusEvent := cur.effectiveDate <= now && (cur.kind.ApiUser? || cur.kind == BcdUpdate || cur.kind == QuantityUpdate);
      RecordBusOrFuture(sub, cur, isBusEvent, 0);
    }

    /** Stores the events of a change of plan in order. */
    method WriteChangeEvents(sub: Subscription, writes: seq<Event>, now: Date, later: seq<Event>)
      requires Valid() && FreshIds(Ids(events), writes + later)
      modifies this
      ensures Valid() && FreshIds(Ids(events), later)
      ensures State() == old(State()).(events := old(events) + Stored(|old(events)|, writes),
                                       outbox := old(outbox) + ChangeEventPosts(replay, sub, writes, now))
    {
      var k := 0;
      while k < |writes|
        invariant 0 <= k <= |writes|
        invariant Valid() && FreshIds(Ids(events), writes[k..] + later)
        invariant State() == old(State()).(events := old(events) + Stored(|old(events)|, writes[..k]),
                                           outbox := old(outbox) + ChangeEventPosts(replay, sub, writes[..k], now))
      {
        FreshIdsStep(Ids(events), writes, k, later);
        StoredStep(|old(events)|, writes, k);
        ChangeEventPostsStep(replay, sub, writes, k, now);
        WriteChangeEvent(sub, writes[k], now);
        k := k + 1;
      }
      assert writes[..k] == writes;
      assert writes[k..] + later == later;
    }

    /** Changes the plan of a subscription, then cancels the add-ons the new
        plan no longer allows. */
    method ChangePlan(sub: Subscription, inputs: seq<Event>, toCancel: seq<Subscription>,
                      cancelEvents: seq<Event>, now: Date)
      requires Valid() && ChangePlanReady(State(), sub, inputs, toCancel, cancelEvents)
      requires FreshIds(Ids(events), inputs + cancelEvents[..|toCancel|])
      modifies this
      ensures Valid()
      ensures State() == AfterChangePlan(replay, old(State()), sub, inputs, toCancel, cancelEvents, now)
    {
      var active := ActiveRows(events, sub.id, AnyDate);
      var first := FirstOf(active);
      var presentOrFuture := ActiveRows(events, sub.id, AtOrAfter(inputs[0].effectiveDate));
      var writes := inputs;
      if first.effectiveDate == inputs[0].effectiveDate {
        writes := [inputs[0].(kind := ApiUser(first.kind.api))] + inputs[1..];
        Deactivate(first.id);
      }
      assert writes == ChangeWrites(old(State()), sub, inputs);
      UnactivateFutureEvents(presentOrFuture, false);
      assert events == ChangeDeactivated(old(State()), sub, inputs);
      var rest := cancelEvents[..|toCancel|];
      FreshIdsSameIds(Ids(events), inputs + rest, writes + rest);
      WriteChangeEvents(sub, writes, now, rest);
      NotifyRequested(writes[|writes| - 1], ChangeTransition, 0);
      assert State() == AfterChangeOwn(replay, old(State()), sub, inputs, now);
      CancelOrExpireSubscriptions(toCancel, cancelEvents, now);
    }

    // -------------------------------------------------------------------
    // Creation of subscriptions
    // -------------------------------------------------------------------

    /** Stores one initial event of a new subscription, then posts it (an
        effective bus event, numbered by the batch's counter) or schedules
        it; with grouping, only the effective post numbered 0 is sent. */
    method WriteInitialEvent(sub: Subscription, cur: Event, now: Date, group: bool, effSeq: int)
      returns (eff: int, stored: Event)
      requires Valid() && cur.id !in Ids(events)
      modifies this
      ensures Valid() && Ids(events) == old(Ids(events)) + {cur.id}
      ensures stored == cur.(totalOrdering := |old(events)| + 1)
      ensures var r := InitialEventPosts(replay, sub, [cur], now, group, effSeq);
        eff == r.1 && State() == PostAll(InsertEvent(old(State()), cur), r.0)
    {
      stored := CreateEvent(cur);
      var isBusEvent := cur.effectiveDate <= now && (cur.kind.ApiUser? || cur.kind == BcdUpdate || cur.kind == QuantityUpdate);
      var seqId := 0;
      eff := effSeq;
      if isBusEvent {
        seqId := eff;
        eff := eff + 1;
      }
      assert [cur][0] == cur && [cur][1..] == [];
      if !isBusEvent || !group || seqId == 0 {
        RecordBusOrFuture(sub, cur, isBusEvent, seqId);
        assert BusOrSchedule(replay, sub, cur, isBusEvent, seqId) + [] == BusOrSchedule(replay, sub, cur, isBusEvent, seqId);
      } else {
        assert old(State()).outbox + [] == old(State()).outbox;
      }
    }

    /** Whether the tables are those a run of WriteInitialEvents has reached
        after its first `k` events, starting from `base`. */
    ghost predicate InitialEventsWritten(base: Tables, sub: Subscription, evs: seq<Event>, k: nat, now: Date, group: bool,
                                         effSeq: int, eff: int, written: seq<Event>)
      requires k <= |evs|
      reads this
    {
      && InitialEventPosts(replay, sub, evs[k..], now, group, eff).1 == InitialEventPosts(replay, sub, evs, now, group, effSeq).1
      && outbox + InitialEventPosts(replay, sub, evs[k..], now, group, eff).0 ==
         base.outbox + InitialEventPosts(replay, sub, evs, now, group, effSeq).0
      && written == Stored(|base.events|, evs[..k])
      && State() == base.(events := base.events + written, outbox := outbox)
    }

    /** One step of WriteInitialEvents. */
    method WriteInitialEventAt(sub: Subscription, evs: seq<Event>, k: nat, now: Date, group: bool, effSeq: int,
                               eff: int, written: seq<Event>, ghost base: Tables, ghost later: seq<Event>)
      returns (eff': int, written': seq<Event>)
      requires k < |evs| && Valid() && FreshIds(Ids(events), evs[k..] + later)
      requires InitialEventsWritten(base, sub, evs, k, now, group, effSeq, eff, written)
      modifies this
      ensures Valid() && FreshIds(Ids(events), evs[k + 1..] + later)
      ensures InitialEventsWritten(base, sub, evs, k + 1, now, group, effSeq, eff', written')
    {
      FreshIdsStep(Ids(events), evs, k, later);
      StoredStep(|base.events|, evs, k);
      InitialPostsStep(replay, sub, evs, k, now, group, eff);
      ghost var one := InitialEventPosts(replay, sub, [evs[k]], now, group, eff);
      ghost var rest := InitialEventPosts(replay, sub, evs[k + 1..], now, group, one.1).0;
      ConcatAssoc(outbox, one.0, rest);
      var stored;
      eff', stored := WriteInitialEvent(sub, evs[k], now, group, eff);
      written' := written + [stored];
    }

    /** Stores the initial events of a new subscription in order. */
    method WriteInitialEvents(sub: Subscription, evs: seq<Event>, now: Date, group: bool, effSeq: int, ghost later: seq<Event>)
      returns (eff: int, written: seq<Event>)
      requires Valid() && FreshIds(Ids(events), evs + later)
      modifies this
      ensures Valid() && FreshIds(Ids(events), later)
      ensures written == Stored(|old(events)|, evs)
      ensures eff == InitialEventPosts(replay, sub, evs, now, group, effSeq).1
      ensures State() == old(State()).(events := old(events) + Stored(|old(events)|, evs),
                                       outbox := old(outbox) + InitialEventPosts(replay, sub, evs, now, group, effSeq).0)
    {
      eff := effSeq;
      written := [];
      var k := 0;
      assert evs[0..] == evs && evs[..0] == [];
      while k < |evs|
        invariant 0 <= k <= |evs|
        invariant Valid() && FreshIds(Ids(events), evs[k..] + later)
        invariant InitialEventsWritten(old(State()), sub, evs, k, now, group, effSeq, eff, written)
      {
        eff, written := WriteInitialEventAt(sub, evs, k, now, group, effSeq, eff, written, old(State()), later);
        k := k + 1;
      }
      assert evs[..k] == evs;
      assert evs[k..] + later == later;
      assert evs[k..] == [];
    }

    /** Creates one subscription of a batch: its row, its initial events, and
        the CREATE requested post for its latest initial event (with
        grouping, only the batch's first one). */
    method CreateSubscription(sub: Subscription, evs: seq<Event>, now: Date, group: bool, effSeq: int, reqSeq: int,
                              ghost later: seq<Event>)
      returns (eff: int, req: int, written: seq<Event>)
      requires Valid() && FreshIds(Ids(events), evs + later)
      modifies this
      ensures Valid() && FreshIds(Ids(events), later)
      ensures written == Stored(|old(events)|, evs)
      ensures (State(), eff, req) == CreateOne(replay, old(State()), effSeq, reqSeq, sub, evs, now, group)
    {
      ghost var posts := InitialEventPosts(replay, sub, evs, now, group, effSeq);
      ghost var requested := RequestedCreatePost(evs, group, reqSeq);
      subscriptions := subscriptions + [sub];
      eff, written := WriteInitialEvents(sub, evs, now, group, effSeq, later);
      req := reqSeq;
      if evs != [] {
        if !group || req == 0 {
          NotifyRequested(evs[|evs| - 1], CreateTransition, req);
          req := req + 1;
        }
      }
      assert outbox == old(outbox) + posts.0 + requested.0;
      assert (eff, req) == (posts.1, requested.1);
    }

    /** The loop state of a creation batch after its first `n`
        subscriptions, starting from `base`: a valid table whose new rows
        are `created`, the initial events not yet written (the tail of
        `all`) still fresh, and the tables and counters `runs[n]` (the
        result CreateRun gives for that prefix). */
    ghost predicate BatchAt(base: Tables, subs: seq<Subscription>, all: seq<Event>, runs: seq<(Tables, int, int)>,
                            n: nat, effSeq: int, reqSeq: int, created: seq<Event>)
      reads this
    {
      && n <= |subs| && |runs| == |subs| + 1 && |created| <= |all|
      && Valid() && FreshIds(Ids(events), all[|created|..])
      && (State(), effSeq, reqSeq) == runs[n]
      && events == base.events + created
    }

    /** The end of a creation batch: the loop state after all of `subs` is
        the one CreateRun describes, its new rows the stored initial events. */
    lemma CreateBatchDone(base: Tables, subs: seq<Subscription>, all: seq<Event>, runs: seq<(Tables, int, int)>,
                          effSeq: int, reqSeq: int, created: seq<Event>,
                          initial: map<SubscriptionId, seq<Event>>, now: Date, group: bool)
      requires runs == CreateRuns(replay, base, subs, initial, now, group)
      requires BatchAt(base, subs, all, runs, |subs|, effSeq, reqSeq, created)
      ensures Valid() && State() == CreateRun(replay, base, subs, initial, now, group).0
      ensures created == Stored(|base.events|, AllInitial(subs, initial))
      ensures events == base.events + created
    {
      assert subs[..|subs|] == subs;
      CreateRunsAt(replay, base, subs, initial, now, group, |subs|);
      CreateRunEvents(replay, base, subs, initial, now, group);
      assert created == events[|base.events|..];
    }

    /** One step of CreateSubscriptionsWithAddOns: the n-th subscription of
        the flattened batch, whose initial events come next in `all` and
        whose creation leads to `runs[n + 1]`. */
    method CreateBatchEntry(sub: Subscription, initial: map<SubscriptionId, seq<Event>>, now: Date, group: bool,
                            effSeq: int, reqSeq: int, created: seq<Event>,
                            ghost base: Tables, ghost subs: seq<Subscription>, ghost all: seq<Event>,
                            ghost runs: seq<(Tables, int, int)>, ghost n: nat)
      returns (effSeq': int, reqSeq': int, created': seq<Event>)
      requires BatchAt(base, subs, all, runs, n, effSeq, reqSeq, created)
      requires n < |subs| && sub.id in initial
      requires |created| + |initial[sub.id]| <= |all|
      requires all[|created|..] == initial[sub.id] + all[|created| + |initial[sub.id]|..]
      requires runs[n + 1] == CreateOne(replay, State(), effSeq, reqSeq, sub, initial[sub.id], now, group)
      modifies this
      ensures BatchAt(base, subs, all, runs, n + 1, effSeq', reqSeq', created')
    {
      var evs := initial[sub.id];
      var written;
      effSeq', reqSeq', written := CreateSubscription(sub, evs, now, group, effSeq, reqSeq, all[|created| + |evs|..]);
      created' := created + written;
      assert events == base.events + created + written;
    }

    /** One base-with-add-ons group of CreateSubscriptionsWithAddOns: its
        subscriptions sit at positions n.. of the flattened batch. */
    method CreateGroup(grp: seq<Subscription>, initial: map<SubscriptionId, seq<Event>>, now: Date, group: bool,
                       effSeq: int, reqSeq: int, created: seq<Event>,
                       ghost base: Tables, ghost subs: seq<Subscription>, ghost all: seq<Event>,
                       ghost runs: seq<(Tables, int, int)>, ghost n: nat)
      returns (effSeq': int, reqSeq': int, created': seq<Event>, ghost m: nat)
      requires n + |grp| <= |subs| && forall j :: 0 <= j < |grp| ==> subs[n + j] == grp[j]
      requires forall s :: s in subs ==> s.id in initial
      requires all == AllInitial(subs, initial) && runs == CreateRuns(replay, base, subs, initial, now, group)
      requires BatchAt(base, subs, all, runs, n, effSeq, reqSeq, created)
      modifies this
      ensures m == n + |grp|
      ensures BatchAt(base, subs, all, runs, m, effSeq', reqSeq', created')
    {
      effSeq', reqSeq', created' := effSeq, reqSeq, created;
      m := n;
      var j := 0;
      while j < |grp|
        invariant 0 <= j <= |grp| && m == n + j
        invariant BatchAt(base, subs, all, runs, m, effSeq', reqSeq', created')
      {
        BatchEntryFacts(replay, base, subs, all, runs, m, initial, now, group, created');
        effSeq', reqSeq', created' := CreateBatchEntry(grp[j], initial, now, group, effSeq', reqSeq', created',
                                                       base, subs, all, runs, m);
        m := m + 1;
        j := j + 1;
      }
    }

    /** Creates every subscription of every base-with-add-ons group, in
        order, with the effective and requested counters shared by the
        whole batch; returns the stored initial events. */
    method CreateSubscriptionsWithAddOns(groups: seq<seq<Subscription>>, initial: map<SubscriptionId, seq<Event>>,
                                         now: Date, group: bool)
      returns (created: seq<Event>)
      requires Valid()
      requires forall s :: s in Flatten(groups) ==> s.id in initial
      requires FreshIds(Ids(events), AllInitial(Flatten(groups), initial))
      modifies this
      ensures Valid()
      ensures State() == CreateRun(replay, old(State()), Flatten(groups), initial, now, group).0
      ensures created == Stored(|old(events)|, AllInitial(Flatten(groups), initial))
      ensures events == old(events) + created
    {
      ghost var base := State();
      ghost var subs := Flatten(groups);
      ghost var all := AllInitial(subs, initial);
      ghost var runs := CreateRuns(replay, base, subs, initial, now, group);
      var effSeq, reqSeq := 0, 0;
      created := [];
      CreateRunsAt(replay, base, subs, initial, now, group, 0);
      assert groups[..0] == [] && subs[..0] == [] && all[0..] == all && events == base.events + created;
      ghost var n := 0;
      var i := 0;
      while i < |groups|
        invariant 0 <= i <= |groups| && n == |Flatten(groups[..i])|
        invariant BatchAt(base, subs, all, runs, n, effSeq, reqSeq, created)
      {
        FlattenNext(groups, i);
        forall j | 0 <= j < |groups[i]|
          ensures subs[n + j] == groups[i][j]
        {
          FlattenStep(groups, i, j);
        }
        effSeq, reqSeq, created, n := CreateGroup(groups[i], initial, now, group, effSeq, reqSeq, created,
                                                  base, subs, all, runs, n);
        i := i + 1;
      }
      assert groups[..i] == groups;
      CreateBatchDone(base, subs, all, runs, effSeq, reqSeq, created, initial, now, group);
    }

    // -------------------------------------------------------------------
    // Bundles and transfer
    // -------------------------------------------------------------------

    /** Releases a key: every bundle holding exactly `key` gets the prefixed
        disambiguated key. */
    method RenameBundleExternalKey(key: string, prefix: string)
      modifies this
      ensures State() == old(State()).(bundles := RenameBundles(old(bundles), key, prefix))
    {
      bundles := RenameBundles(bundles, key, prefix);
    }

    /** The ids of the non-ADD_ON subscriptions of every bundle whose key is
        like `key`, bundle by bundle. */
    method GetNonAOSubscriptionIdsForKey(key: string) returns (ids: seq<SubscriptionId>)
      ensures ids == SubscriptionIds(NonAddOnsOf(LikeKeyBundles(bundles, key), subscriptions))
    {
      var like := LikeKeyBundles(bundles, key);
      ids := [];
      var i := 0;
      while i < |like|
        invariant 0 <= i <= |like|
        invariant ids == SubscriptionIds(NonAddOnsOf(like[..i], subscriptions))
      {
        var filtered := NonAddOns(subscriptions, like[i].id);
        assert like[..i + 1][..i] == like[..i] && like[..i + 1][i] == like[i];
        SubscriptionIdsAppend(NonAddOnsOf(like[..i], subscriptions), filtered);
        ids := ids + SubscriptionIds(filtered);
        i := i + 1;
      }
      assert like[..i] == like;
    }

    /** Where the scan of the like-key bundles stands: only the bundle
        table changed, every non-ADD_ON subscription seen so far is
        CANCELLED, and the key is released once one was seen, when asked. */
    ghost predicate KeyScanned(base: Tables, key: string, renameCancelled: bool, seen: seq<Subscription>)
      reads this
    {
      && State() == base.(bundles := bundles)
      && AllCancelled(replay, base, seen)
      && bundles == if renameCancelled && seen != [] then RenameBundles(base.bundles, key, "cncl") else base.bundles
    }

    /** Checks one non-ADD_ON subscription of a like-key bundle: reports it
        when it is not CANCELLED; otherwise renames the key's bundles when
        asked to. */
    method CheckCancelled(key: string, renameCancelled: bool, sub: Subscription,
                          ghost base: Tables, ghost seen: seq<Subscription>)
      returns (active: bool)
      requires KeyScanned(base, key, renameCancelled, seen)
      modifies this
      ensures active ==> !IsCancelled(replay, base, sub) && State() == base.(bundles := bundles)
      ensures !active ==> KeyScanned(base, key, renameCancelled, seen + [sub])
    {
      active := !IsCancelled(replay, State(), sub);
      if !active && renameCancelled {
        RenameBundlesIdempotent(base.bundles, key, "cncl");
        RenameBundleExternalKey(key, "cncl");
      }
      assert forall i :: 0 <= i < |seen| ==> (seen + [sub])[i] == seen[i];
    }

    /** Checks the non-ADD_ON subscriptions of one like-key bundle: reports
        the first that is not CANCELLED; renames the key's bundles for each
        cancelled one when asked to. */
    method ScanBundleSubscriptions(key: string, renameCancelled: bool, filtered: seq<Subscription>,
                                   ghost base: Tables, ghost before: seq<Subscription>)
      returns (active: bool, ghost at: nat)
      requires KeyScanned(base, key, renameCancelled, before)
      modifies this
      ensures active ==> at < |filtered| && !IsCancelled(replay, base, filtered[at]) && State() == base.(bundles := bundles)
      ensures !active ==> KeyScanned(base, key, renameCancelled, before + filtered)
    {
      var j := 0;
      at := 0;
      assert filtered[..0] == [] && before + [] == before;
      while j < |filtered|
        invariant 0 <= j <= |filtered|
        invariant KeyScanned(base, key, renameCancelled, before + filtered[..j])
      {
        active := CheckCancelled(key, renameCancelled, filtered[j], base, before + filtered[..j]);
        if active {
          at := j;
          return;
        }
        assert before + filtered[..j + 1] == before + filtered[..j] + [filtered[j]];
        j := j + 1;
      }
      assert filtered[..j] == filtered;
      active := false;
    }

    /** Creates a bundle for an external key: reuses a same-account bundle
        with exactly that key and no subscription; otherwise fails when a
        non-ADD_ON subscription of a like-key bundle is not CANCELLED
        (leaving every table as it was), renames the cancelled ones' keys
        when asked to, and stores the new bundle. */
    method CreateSubscriptionBundle(bundle: Bundle, renameCancelled: bool) returns (r: Result<Bundle>)
      modifies this
      ensures var expected := AfterCreateBundle(replay, old(State()), bundle, renameCancelled);
        && (expected.Err? ==> r == Err(expected.error) && State() == old(State()))
        && (expected.Ok? ==> r == Ok(expected.value.1) && State() == expected.value.0)
    {
      ghost var base := State();
      var unused := UnusedBundle(State(), bundle);
      if unused.Some? {
        r := Ok(unused.value);
        return;
      }
      // the transaction's rollback restores the bundle table
      var saved := bundles;
      var existing := LikeKeyBundles(bundles, bundle.externalKey);
      var i := 0;
      assert existing[..0] == [];
      while i < |existing|
        invariant 0 <= i <= |existing|
        invariant KeyScanned(base, bundle.externalKey, renameCancelled, NonAddOnsOf(existing[..i], subscriptions))
      {
        var filtered := NonAddOns(subscriptions, existing[i].id);
        assert existing[..i + 1][..i] == existing[..i] && existing[..i + 1][i] == existing[i];
        var active, at := ScanBundleSubscriptions(bundle.externalKey, renameCancelled, filtered, base,
                                                  NonAddOnsOf(existing[..i], subscriptions));
        if active {
          NonAddOnsOfContains(existing, subscriptions, i, at);
          bundles := saved;
          r := Err(ActiveBundleKeyExists(bundle.externalKey));
          return;
        }
        i := i + 1;
      }
      assert existing[..i] == existing;
      var model := bundle;
      if existing != [] {
        model := bundle.(originalCreatedDate := existing[0].createdDate);
      }
      bundles := bundles + [model];
      r := Ok(model);
    }

    /** Moves the m-th subscription of a transfer: its initial events stored
        and scheduled, its row, and a TRANSFER requested post. */
    method TransferSubscription(moved: seq<SubscriptionTransfer>, m: nat, ghost base: Tables)
      requires m < |moved| && forall i :: 0 <= i < |moved| ==> moved[i].initialEvents != []
      requires Valid() && FreshIds(Ids(events), MovedEvents(moved[m..]))
      requires State() == AfterTransferSubscriptions(base, moved[..m])
      modifies this
      ensures Valid() && FreshIds(Ids(events), MovedEvents(moved[m + 1..]))
      ensures State() == AfterTransferSubscriptions(base, moved[..m + 1])
    {
      var cur := moved[m];
      MovedEventsStep(moved, m);
      assert moved[..m + 1][..m] == moved[..m] && moved[..m + 1][m] == cur;
      CreateAndScheduleEvents(cur.initialEvents, MovedEvents(moved[m + 1..]));
      subscriptions := subscriptions + [cur.subscription];
      NotifyRequested(cur.initialEvents[|cur.initialEvents| - 1], TransferTransition, 0);
    }

    /** Writes the transferred bundle's data under the destination account:
        nothing when that account already has a bundle with the key;
        otherwise, per subscription, its initial events stored and scheduled,
        its row, and a TRANSFER requested post for its last event, then the
        bundle row. */
    method TransferBundleData(bundle: Bundle, moved: seq<SubscriptionTransfer>)
      requires forall i :: 0 <= i < |moved| ==> moved[i].initialEvents != []
      requires Valid() && FreshIds(Ids(events), MovedEvents(moved))
      modifies this
      ensures Valid()
      ensures State() == AfterTransferData(old(State()), bundle, moved)
    {
      if exists b :: b in bundles && b.accountId == bundle.accountId && b.externalKey == bundle.externalKey {
        return;
      }
      var m := 0;
      assert moved[0..] == moved && moved[..0] == [];
      while m < |moved|
        invariant 0 <= m <= |moved|
        invariant Valid() && FreshIds(Ids(events), MovedEvents(moved[m..]))
        invariant State() == AfterTransferSubscriptions(old(State()), moved[..m])
      {
        TransferSubscription(moved, m, old(State()));
        m := m + 1;
      }
      assert moved[..m] == moved;
      bundles := bundles + [bundle];
    }

    /** The cancels of a transfer, each effective post with sequence id 0,
        with the events `later` still to be inserted after them. */
    method CancelForTransfer(cancelled: seq<Subscription>, cancelEvents: seq<Event>, now: Date, ghost later: seq<Event>)
      requires |cancelEvents| >= |cancelled|
      requires Valid() && FreshIds(Ids(events), cancelEvents[..|cancelled|] + later)
      modifies this
      ensures Valid() && FreshIds(Ids(events), later)
      ensures State() == AfterTransferCancels(replay, old(State()), cancelled, cancelEvents, now)
    {
      var i := 0;
      while i < |cancelled|
        invariant 0 <= i <= |cancelled|
        invariant Valid() && FreshIds(Ids(events), cancelEvents[i..|cancelled|] + later)
        invariant AfterTransferCancels(replay, State(), cancelled[i..], cancelEvents[i..], now) ==
                  AfterTransferCancels(replay, old(State()), cancelled, cancelEvents, now)
      {
        assert cancelled[i..][0] == cancelled[i] && cancelled[i..][1..] == cancelled[i + 1..];
        assert cancelEvents[i..][0] == cancelEvents[i] && cancelEvents[i..][1..] == cancelEvents[i + 1..];
        ghost var rest := cancelEvents[i..|cancelled|] + later;
        assert rest[0] == cancelEvents[i] && rest[1..] == cancelEvents[i + 1..|cancelled|] + later;
        FreshIdsTail(Ids(events), rest);
        CancelOrExpireSubscription(cancelled[i], cancelEvents[i], now, 0);
        i := i + 1;
      }
      assert cancelEvents[i..|cancelled|] + later == later;
    }

    /** Transfers a bundle: cancels the source subscriptions (each effective
        post with sequence id 0), releases the key under the "tsf" prefix,
        then writes the destination data. */
    method TransferBundle(cancelled: seq<Subscription>, cancelEvents: seq<Event>, bundle: Bundle,
                          moved: seq<SubscriptionTransfer>, now: Date)
      requires |cancelEvents| >= |cancelled|
      requires forall i :: 0 <= i < |moved| ==> moved[i].initialEvents != []
      requires Valid() && FreshIds(Ids(events), cancelEvents[..|cancelled|] + MovedEvents(moved))
      modifies this
      ensures Valid()
      ensures State() == AfterTransfer(replay, old(State()), cancelled, cancelEvents, bundle, moved, now)
    {
      CancelForTransfer(cancelled, cancelEvents, now, MovedEvents(moved));
      RenameBundleExternalKey(bundle.externalKey, "tsf");
      TransferBundleData(bundle, moved);
    }
  }
}
