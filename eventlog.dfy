/** The rules the subscription store applies to its event table, bundle table
    and outbox, stated as functions over the tables' rows. */
module EventLog {
  import opened Events
  import opened Collaborators

  // ---------------------------------------------------------------------
  // Event table queries
  // ---------------------------------------------------------------------

  /** The date window of an event query. */
  datatype Window = AnyDate | AtOrAfter(date: Date) | After(date: Date)

  predicate InWindow(e: Event, w: Window) {
    match w
    case AnyDate => true
    case AtOrAfter(d) => e.effectiveDate >= d
    case After(d) => e.effectiveDate > d
  }

  predicate Selected(e: Event, subscriptionId: SubscriptionId, w: Window) {
    e.active && e.subscriptionId == subscriptionId && InWindow(e, w)
  }

  /** The active rows of one subscription inside a date window, in table order. */
  function ActiveRows(s: seq<Event>, subscriptionId: SubscriptionId, w: Window): seq<Event>
    decreases |s|
  {
    if s == [] then []
    else ActiveRows(s[..|s| - 1], subscriptionId, w) +
         (if Selected(s[|s| - 1], subscriptionId, w) then [s[|s| - 1]] else [])
  }

  lemma {:induction false} ActiveRowsMembers(s: seq<Event>, subscriptionId: SubscriptionId, w: Window)
    ensures forall e :: e in ActiveRows(s, subscriptionId, w) <==> e in s && Selected(e, subscriptionId, w)
    decreases |s|
  {
    if s != [] {
      ActiveRowsMembers(s[..|s| - 1], subscriptionId, w);
      assert s == s[..|s| - 1] + [s[|s| - 1]];
    }
  }

  /** `a` sorts no later than `b` by (effective date, total ordering). */
  predicate NoLater(a: Event, b: Event) {
    a.effectiveDate < b.effectiveDate ||
    (a.effectiveDate == b.effectiveDate && a.totalOrdering <= b.totalOrdering)
  }

  /** The first row by (effective date, total ordering). */
  function FirstOf(rows: seq<Event>): Event
    requires rows != []
    decreases |rows|
  {
    if |rows| == 1 then rows[0]
    else
      var m := FirstOf(rows[1..]);
      if NoLater(rows[0], m) then rows[0] else m
  }

  lemma {:induction false} FirstOfIsFirst(rows: seq<Event>)
    requires rows != []
    ensures FirstOf(rows) in rows
    ensures forall e :: e in rows ==> NoLater(FirstOf(rows), e)
    decreases |rows|
  {
    if |rows| > 1 {
      FirstOfIsFirst(rows[1..]);
      assert rows == [rows[0]] + rows[1..];
    }
  }

  /** Table invariant: each row's total ordering is its record number, and
      event ids are a primary key. */
  predicate WellFormed(s: seq<Event>) {
    && (forall i :: 0 <= i < |s| ==> s[i].totalOrdering == i + 1)
    && (forall i, j :: 0 <= i < j < |s| ==> s[i].id != s[j].id)
  }

  function Ids(s: seq<Event>): set<EventId> {
    set i | 0 <= i < |s| :: s[i].id
  }

  /** Events that can be inserted in this order: distinct ids, none taken. */
  predicate FreshIds(taken: set<EventId>, inputs: seq<Event>) {
    && (forall i :: 0 <= i < |inputs| ==> inputs[i].id !in taken)
    && (forall i, j :: 0 <= i < j < |inputs| ==> inputs[i].id != inputs[j].id)
  }

  lemma IdsAppend(table: seq<Event>, stored: Event)
    ensures Ids(table + [stored]) == Ids(table) + {stored.id}
  {
    var t := table + [stored];
    forall x | x in Ids(t) ensures x in Ids(table) + {stored.id} {
      var j :| 0 <= j < |t| && t[j].id == x;
      if j < |table| { assert t[j] == table[j]; }
    }
    forall x | x in Ids(table) ensures x in Ids(t) {
      var j :| 0 <= j < |table| && table[j].id == x;
      assert t[j] == table[j];
    }
    assert t[|table|] == stored;
  }

  /** Once the first input is inserted, the rest can still be inserted. */
  lemma FreshIdsTail(taken: set<EventId>, inputs: seq<Event>)
    requires FreshIds(taken, inputs) && inputs != []
    ensures FreshIds(taken + {inputs[0].id}, inputs[1..])
  {
    forall i | 0 <= i < |inputs[1..]| ensures inputs[1..][i].id !in taken + {inputs[0].id} {
      assert inputs[1..][i] == inputs[i + 1];
    }
  }

  /** The step of a loop inserting `evs` in order, with `later` to follow. */
  lemma FreshIdsStep(taken: set<EventId>, evs: seq<Event>, k: nat, later: seq<Event>)
    requires k < |evs| && FreshIds(taken, evs[k..] + later)
    ensures evs[k].id !in taken
    ensures FreshIds(taken + {evs[k].id}, evs[k + 1..] + later)
  {
    assert (evs[k..] + later)[0] == evs[k] && (evs[k..] + later)[1..] == evs[k + 1..] + later;
    FreshIdsTail(taken, evs[k..] + later);
  }

  lemma FreshIdsPrefix(taken: set<EventId>, a: seq<Event>, b: seq<Event>)
    requires FreshIds(taken, a + b)
    ensures FreshIds(taken, a) && FreshIds(taken, b)
  {
    forall i | 0 <= i < |a| ensures a[i] == (a + b)[i] {}
    forall i | 0 <= i < |b| ensures b[i] == (a + b)[|a| + i] {}
  }

  /** Freshness depends on the ids only. */
  lemma FreshIdsSameIds(taken: set<EventId>, a: seq<Event>, b: seq<Event>)
    requires FreshIds(taken, a) && |a| == |b| && forall i :: 0 <= i < |a| ==> a[i].id == b[i].id
    ensures FreshIds(taken, b)
  {
  }

  /** A fresh event stored last keeps the table well formed. */
  lemma AppendPreservesWellFormed(table: seq<Event>, e: Event)
    requires WellFormed(table) && e.id !in Ids(table)
    ensures WellFormed(table + [e.(totalOrdering := |table| + 1)])
  {
    var t := table + [e.(totalOrdering := |table| + 1)];
    forall i, j | 0 <= i < j < |t| ensures t[i].id != t[j].id {
      if j == |table| {
        assert t[i] == table[i] && table[i].id in Ids(table);
      } else {
        assert t[i] == table[i] && t[j] == table[j];
      }
    }
  }

  lemma DeactivatePreservesWellFormed(s: seq<Event>, ids: set<EventId>)
    requires WellFormed(s)
    ensures WellFormed(DeactivateIds(s, ids)) && Ids(DeactivateIds(s, ids)) == Ids(s)
  {
    var r := DeactivateIds(s, ids);
    assert forall i :: 0 <= i < |s| ==> r[i].id == s[i].id;
    forall x | x in Ids(r) ensures x in Ids(s) {
      var i :| 0 <= i < |r| && r[i].id == x;
    }
    forall x | x in Ids(s) ensures x in Ids(r) {
      var i :| 0 <= i < |s| && s[i].id == x;
      assert r[i].id == x;
    }
  }

  /** The ids the deactivation filter picks among the passed rows. */
  function DeactivationIds(rows: seq<Event>, including: bool): set<EventId> {
    set i | 0 <= i < |rows| && ShouldDeactivate(rows[i], including) :: rows[i].id
  }

  /** The deactivation of a batch of table rows never touches a genesis row,
      touches a BCD or quantity update only when asked to, makes every other
      passed row inactive, and leaves the rows it was not passed as they were. */
  lemma UnactivateEffect(s: seq<Event>, rows: seq<Event>, including: bool)
    requires WellFormed(s)
    requires forall r :: r in rows ==> r in s
    ensures var t := DeactivateIds(s, DeactivationIds(rows, including));
      && |t| == |s|
      && (forall i :: 0 <= i < |s| && IsGenesis(s[i]) ==> t[i] == s[i])
      && (forall i :: 0 <= i < |s| && (s[i].kind == BcdUpdate || s[i].kind == QuantityUpdate) && !including ==> t[i] == s[i])
      && (forall i :: 0 <= i < |s| && s[i] in rows && ShouldDeactivate(s[i], including) ==> t[i] == s[i].(active := false))
      && (forall i :: 0 <= i < |s| && s[i] !in rows ==> t[i] == s[i])
  {
    var ids := DeactivationIds(rows, including);
    var t := DeactivateIds(s, ids);
    forall i | 0 <= i < |s| && s[i].id in ids
      ensures s[i] in rows && ShouldDeactivate(s[i], including)
    {
      var j :| 0 <= j < |rows| && ShouldDeactivate(rows[j], including) && rows[j].id == s[i].id;
      assert rows[j] in s;
      var k :| 0 <= k < |s| && s[k] == rows[j];
      assert k == i;
    }
    forall i | 0 <= i < |s| && s[i] in rows && ShouldDeactivate(s[i], including)
      ensures s[i].id in ids
    {
      var j :| 0 <= j < |rows| && rows[j] == s[i];
    }
  }

  // ---------------------------------------------------------------------
  // Unique future-event lookup
  // ---------------------------------------------------------------------

  /** The persisted event type without its API payload. */
  datatype EventTag = ApiUserTag | PhaseTag | ExpiredTag | BcdTag | QuantityTag

  function Tag(k: EventType): EventTag {
    match k
    case ApiUser(_) => ApiUserTag
    case Phase => PhaseTag
    case Expired => ExpiredTag
    case BcdUpdate => BcdTag
    case QuantityUpdate => QuantityTag
  }

  /** A row matches the lookup on its type and, when one is given, its API type. */
  predicate MatchesLookup(e: Event, tag: EventTag, api: Option<ApiEventType>) {
    Tag(e.kind) == tag && (api.None? || e.kind == ApiUser(api.value))
  }

  function Matching(rows: seq<Event>, tag: EventTag, api: Option<ApiEventType>): seq<Event>
    decreases |rows|
  {
    if rows == [] then []
    else Matching(rows[..|rows| - 1], tag, api) +
         (if MatchesLookup(rows[|rows| - 1], tag, api) then [rows[|rows| - 1]] else [])
  }

  datatype Error =
    | ActiveBundleKeyExists(key: string)       // SUB_CREATE_ACTIVE_BUNDLE_KEY_EXISTS
    | MultipleFutureEvents(tag: EventTag)      // the internal-consistency error

  datatype Result<T> = Ok(value: T) | Err(error: Error)

  // ---------------------------------------------------------------------
  // Outbox
  // ---------------------------------------------------------------------

  datatype TransitionType = CreateTransition | ChangeTransition | CancelTransition | UncancelTransition
                          | UndoChangeTransition | PhaseTransition | ExpiredTransition | TransferTransition

  /** One side effect issued from inside a transaction. */
  datatype Post =
    | Scheduled(effectiveDate: Date, eventId: EventId)
    | EffectivePost(eventId: EventId, seqId: int)
    | RequestedPost(eventId: EventId, transition: TransitionType, seqId: int)

  /** An event already effective whose type is published on the bus. */
  predicate IsBusEvent(e: Event, now: Date) {
    e.effectiveDate <= now && (e.kind.ApiUser? || e.kind == BcdUpdate || e.kind == QuantityUpdate)
  }

  /** The effective-change notification: sent only when the subscription
      yields a transition for the event. */
  function EffectiveNotice(replay: Replay, sub: Subscription, e: Event, seqId: int): seq<Post> {
    if replay.hasTransition(sub, e) then [EffectivePost(e.id, seqId)] else []
  }

  /** An effective event goes to the bus, a future one is scheduled. */
  function BusOrSchedule(replay: Replay, sub: Subscription, e: Event, busEvent: bool, seqId: int): seq<Post> {
    if busEvent then EffectiveNotice(replay, sub, e, seqId) else [Scheduled(e.effectiveDate, e.id)]
  }

  /** Posts of a new subscription's initial events, with the effective-post
      counter threaded through; with grouping, only sequence id 0 is sent. */
  function InitialEventPosts(replay: Replay, sub: Subscription, evs: seq<Event>, now: Date, group: bool, effSeq: int): (seq<Post>, int)
    decreases |evs|
  {
    if evs == [] then ([], effSeq)
    else
      var e := evs[0];
      var bus := IsBusEvent(e, now);
      var seqId := if bus then effSeq else 0;
      var p := if !bus || !group || seqId == 0 then BusOrSchedule(replay, sub, e, bus, seqId) else [];
      var rest := InitialEventPosts(replay, sub, evs[1..], now, group, if bus then effSeq + 1 else effSeq);
      (p + rest.0, rest.1)
  }

  /** The posts of `evs[k..]` are those of `evs[k]` alone followed by those
      of the rest, the counter threaded between them. */
  lemma InitialPostsStep(replay: Replay, sub: Subscription, evs: seq<Event>, k: nat, now: Date, group: bool, effSeq: int)
    requires k < |evs|
    ensures var one := InitialEventPosts(replay, sub, [evs[k]], now, group, effSeq);
      var rest := InitialEventPosts(replay, sub, evs[k + 1..], now, group, one.1);
      InitialEventPosts(replay, sub, evs[k..], now, group, effSeq) == (one.0 + rest.0, rest.1)
  {
    var e := evs[k];
    var bus := IsBusEvent(e, now);
    var seqId := if bus then effSeq else 0;
    var p := if !bus || !group || seqId == 0 then BusOrSchedule(replay, sub, e, bus, seqId) else [];
    var next := if bus then effSeq + 1 else effSeq;
    assert [e][0] == e && [e][1..] == [];
    assert InitialEventPosts(replay, sub, [e][1..], now, group, next) == ([], next);
    assert p + [] == p;
    assert InitialEventPosts(replay, sub, [e], now, group, effSeq) == (p, next);
    assert evs[k..][0] == e && evs[k..][1..] == evs[k + 1..];
  }

  /** The requested-change post of a new subscription, for its latest initial
      event; with grouping, only the first one of the batch is sent. */
  function RequestedCreatePost(evs: seq<Event>, group: bool, reqSeq: int): (seq<Post>, int) {
    if evs != [] && (!group || reqSeq == 0)
    then ([RequestedPost(evs[|evs| - 1].id, CreateTransition, reqSeq)], reqSeq + 1)
    else ([], reqSeq)
  }

  predicate SeqIdsZero(posts: seq<Post>) {
    forall i :: 0 <= i < |posts| ==> (posts[i].EffectivePost? || posts[i].RequestedPost?) ==> posts[i].seqId == 0
  }

  function CountEffective(posts: seq<Post>): nat
    decreases |posts|
  {
    if posts == [] then 0 else (if posts[0].EffectivePost? then 1 else 0) + CountEffective(posts[1..])
  }

  lemma {:induction false} CountEffectiveAppend(a: seq<Post>, b: seq<Post>)
    ensures CountEffective(a + b) == CountEffective(a) + CountEffective(b)
    decreases |a|
  {
    if a != [] {
      assert (a + b)[1..] == a[1..] + b;
      CountEffectiveAppend(a[1..], b);
    } else {
      assert a + b == b;
    }
  }

  /** With grouping on, the initial events of a batch send effective posts
      with sequence id 0 only, hence at most one once the counter has moved. */
  lemma {:induction false} GroupedInitialPosts(replay: Replay, sub: Subscription, evs: seq<Event>, now: Date, effSeq: int)
    requires effSeq >= 0
    ensures var (p, next) := InitialEventPosts(replay, sub, evs, now, true, effSeq);
      && SeqIdsZero(p)
      && next >= effSeq
      && CountEffective(p) <= (if effSeq == 0 then 1 else 0)
      && (CountEffective(p) == 1 ==> next >= 1)
    decreases |evs|
  {
    if evs != [] {
      var e := evs[0];
      var bus := IsBusEvent(e, now);
      var seqId := if bus then effSeq else 0;
      var p0 := if !bus || seqId == 0 then BusOrSchedule(replay, sub, e, bus, seqId) else [];
      var nextSeq := if bus then effSeq + 1 else effSeq;
      GroupedInitialPosts(replay, sub, evs[1..], now, nextSeq);
      var rest := InitialEventPosts(replay, sub, evs[1..], now, true, nextSeq);
      CountEffectiveAppend(p0, rest.0);
      assert CountEffective(p0) == (if bus && seqId == 0 && replay.hasTransition(sub, e) then 1 else 0);
      assert SeqIdsZero(p0);
      SeqIdsZeroAppend(p0, rest.0);
    }
  }

  lemma SeqIdsZeroAppend(a: seq<Post>, b: seq<Post>)
    requires SeqIdsZero(a) && SeqIdsZero(b)
    ensures SeqIdsZero(a + b)
  {
    forall i | 0 <= i < |a + b| && ((a + b)[i].EffectivePost? || (a + b)[i].RequestedPost?)
      ensures (a + b)[i].seqId == 0
    {
      if i >= |a| { assert (a + b)[i] == b[i - |a|]; }
    }
  }

  /** The number of events of a list that are effective bus events. */
  function CountBus(evs: seq<Event>, now: Date): nat
    decreases |evs|
  {
    if evs == [] then 0 else (if IsBusEvent(evs[0], now) then 1 else 0) + CountBus(evs[1..], now)
  }

  /** The effective-post counter advances once per effective bus event,
      whether or not grouping suppresses the post itself. */
  lemma {:induction false} InitialPostsCounter(replay: Replay, sub: Subscription, evs: seq<Event>, now: Date, group: bool, effSeq: int)
    ensures InitialEventPosts(replay, sub, evs, now, group, effSeq).1 == effSeq + CountBus(evs, now)
    decreases |evs|
  {
    if evs != [] {
      var bus := IsBusEvent(evs[0], now);
      InitialPostsCounter(replay, sub, evs[1..], now, group, if bus then effSeq + 1 else effSeq);
    }
  }

  // ---------------------------------------------------------------------
  // changePlan and undo
  // ---------------------------------------------------------------------

  /** The events changePlan writes: on the genesis date, the CHANGE is
      rewritten into a genesis event of the genesis's own API type. */
  function ChangePlanInputs(first: Event, inputs: seq<Event>): seq<Event>
    requires inputs != [] && (first.effectiveDate == inputs[0].effectiveDate ==> first.kind.ApiUser?)
  {
    if first.effectiveDate == inputs[0].effectiveDate
    then [inputs[0].(kind := ApiUser(first.kind.api))] + inputs[1..]
    else inputs
  }

  lemma ChangePlanInputsShape(first: Event, inputs: seq<Event>)
    requires inputs != [] && IsGenesis(first) && IsApi(inputs[0], Change)
    ensures var r := ChangePlanInputs(first, inputs);
      && |r| == |inputs| && r[1..] == inputs[1..]
      && (first.effectiveDate == inputs[0].effectiveDate <==> IsGenesis(r[0]))
      && r[0] == inputs[0].(kind := r[0].kind)
      && (IsGenesis(r[0]) ==> r[0].kind == first.kind)
  {
  }

  /** What undo deactivates: the future rows that are API events of the
      target type, and the future PHASE rows. */
  predicate UndoTarget(e: Event, target: ApiEventType) {
    e.kind == ApiUser(target) || e.kind == Phase
  }

  function UndoTargets(rows: seq<Event>, target: ApiEventType): seq<Event>
    decreases |rows|
  {
    if rows == [] then []
    else UndoTargets(rows[..|rows| - 1], target) +
         (if UndoTarget(rows[|rows| - 1], target) then [rows[|rows| - 1]] else [])
  }

  function IdsOf(rows: seq<Event>): set<EventId> {
    set i | 0 <= i < |rows| :: rows[i].id
  }

  lemma {:induction false} UndoTargetsMembers(rows: seq<Event>, target: ApiEventType)
    ensures forall e :: e in UndoTargets(rows, target) <==> e in rows && UndoTarget(e, target)
    decreases |rows|
  {
    if rows != [] {
      UndoTargetsMembers(rows[..|rows| - 1], target);
      assert rows == rows[..|rows| - 1] + [rows[|rows| - 1]];
    }
  }

  /** The scheduled posts of a list of events, one per event at its date. */
  function ScheduleAll(evs: seq<Event>): (r: seq<Post>)
    ensures |r| == |evs|
    decreases |evs|
  {
    if evs == [] then [] else [Scheduled(evs[0].effectiveDate, evs[0].id)] + ScheduleAll(evs[1..])
  }

  /** The i-th scheduled post is the notification of the i-th event at its date. */
  lemma {:induction false} ScheduleAllAt(evs: seq<Event>)
    ensures forall i :: 0 <= i < |evs| ==> ScheduleAll(evs)[i] == Scheduled(evs[i].effectiveDate, evs[i].id)
    decreases |evs|
  {
    if evs != [] {
      ScheduleAllAt(evs[1..]);
    }
  }

  lemma StoredAppend(n: nat, a: seq<Event>, b: seq<Event>)
    ensures Stored(n, a + b) == Stored(n, a) + Stored(n + |a|, b)
  {
    var l := Stored(n, a + b);
    var r := Stored(n, a) + Stored(n + |a|, b);
    StoredAt(n, a + b);
    StoredAt(n, a);
    StoredAt(n + |a|, b);
    forall i | 0 <= i < |l| ensures l[i] == r[i] {
      if i < |a| { assert (a + b)[i] == a[i]; } else { assert (a + b)[i] == b[i - |a|]; }
    }
  }

  /** Storing `b` then `c` after the rows `a` stores `b + c` after `a`. */
  lemma StoredExtend(a: seq<Event>, b: seq<Event>, c: seq<Event>, ab: seq<Event>, abc: seq<Event>)
    requires ab == a + Stored(|a|, b) && abc == ab + Stored(|ab|, c)
    ensures abc == a + Stored(|a|, b + c)
  {
    var sb := Stored(|a|, b);
    var sc := Stored(|a| + |b|, c);
    assert |ab| == |a| + |b|;
    assert abc == (a + sb) + sc;
    StoredAppend(|a|, b, c);
    ConcatAssoc(a, sb, sc);
  }

  /** The stored copies of `b` followed by those of `c`, stored right after
      them, are the stored copies of `b + c`. */
  lemma StoredMore(n: nat, b: seq<Event>, c: seq<Event>, sb: seq<Event>, sc: seq<Event>)
    requires sb == Stored(n, b) && sc == Stored(n + |b|, c)
    ensures sb + sc == Stored(n, b + c)
  {
    StoredAppend(n, b, c);
  }

  lemma ConcatAssoc<T>(x: seq<T>, y: seq<T>, z: seq<T>)
    ensures (x + y) + z == x + (y + z)
  {
  }

  lemma ConcatSlices<T>(x: seq<T>, y: seq<T>, z: seq<T>)
    ensures (x + y + z)[|x|..] == y + z && (x + y + z)[|x| + |y|..] == z
  {
    var s := x + y + z;
    assert forall i :: 0 <= i < |y| + |z| ==> s[|x| + i] == (y + z)[i];
    assert forall i :: 0 <= i < |z| ==> s[|x| + |y| + i] == z[i];
  }

  lemma StoredStep(n: nat, evs: seq<Event>, k: nat)
    requires k < |evs|
    ensures Stored(n, evs[..k + 1]) == Stored(n, evs[..k]) + [evs[k].(totalOrdering := n + k + 1)]
  {
    assert evs[..k + 1] == evs[..k] + [evs[k]];
    StoredAppend(n, evs[..k], [evs[k]]);
  }

  lemma ScheduleAllStep(evs: seq<Event>, k: nat)
    requires k < |evs|
    ensures ScheduleAll(evs[..k + 1]) == ScheduleAll(evs[..k]) + [Scheduled(evs[k].effectiveDate, evs[k].id)]
  {
    assert evs[..k + 1] == evs[..k] + [evs[k]];
    ScheduleAllAppend(evs[..k], [evs[k]]);
  }

  lemma ScheduleAllAppend(a: seq<Event>, b: seq<Event>)
    ensures ScheduleAll(a + b) == ScheduleAll(a) + ScheduleAll(b)
  {
    var l := ScheduleAll(a + b);
    var r := ScheduleAll(a) + ScheduleAll(b);
    ScheduleAllAt(a + b);
    ScheduleAllAt(a);
    ScheduleAllAt(b);
    forall i | 0 <= i < |l| ensures l[i] == r[i] {
      if i < |a| { assert (a + b)[i] == a[i]; } else { assert (a + b)[i] == b[i - |a|]; }
    }
  }

  /** Stored copies of inserted events: each gets the next record number. */
  function Stored(tableSize: nat, evs: seq<Event>): (r: seq<Event>)
    ensures |r| == |evs|
    decreases |evs|
  {
    if evs == [] then [] else [evs[0].(totalOrdering := tableSize + 1)] + Stored(tableSize + 1, evs[1..])
  }

  /** The i-th stored copy is the i-th event numbered `tableSize + i + 1`. */
  lemma {:induction false} StoredAt(tableSize: nat, evs: seq<Event>)
    ensures forall i :: 0 <= i < |evs| ==> Stored(tableSize, evs)[i] == evs[i].(totalOrdering := tableSize + i + 1)
    decreases |evs|
  {
    if evs != [] {
      StoredAt(tableSize + 1, evs[1..]);
    }
  }

  // ---------------------------------------------------------------------
  // Bundle keys
  // ---------------------------------------------------------------------

  predicate EndsWith(s: string, suffix: string) {
    |suffix| <= |s| && s[|s| - |suffix|..] == suffix
  }

  /** A key matches a "like" lookup on `key` when it is `key` itself or a key
      renamed from it, which ends with ":" followed by `key`. */
  predicate LikeKey(k: string, key: string) {
    k == key || EndsWith(k, [':'] + key)
  }

  function DigitsOf(n: nat): (r: string)
    ensures |r| >= 1
  {
    var d := ['0', '1', '2', '3', '4', '5', '6', '7', '8', '9'][n % 10];
    if n < 10 then [d] else DigitsOf(n / 10) + [d]
  }

  /** The disambiguated key a bundle gets when its key is released:
      "kb" + prefix + "-" + the bundle's number + ":" + the old key. */
  function RenamedKey(prefix: string, id: BundleId, key: string): string {
    "kb" + prefix + "-" + DigitsOf(id) + ":" + key
  }

  lemma RenamedKeyReleasesKey(prefix: string, id: BundleId, key: string)
    ensures RenamedKey(prefix, id, key) != key
    ensures LikeKey(RenamedKey(prefix, id, key), key)
  {
    var r := RenamedKey(prefix, id, key);
    assert |r| > |key|;
    assert r == ("kb" + prefix + "-" + DigitsOf(id)) + ([':'] + key);
  }

  /** Renaming releases `key`: every bundle holding exactly that key gets the
      prefixed key; the others are unchanged. */
  function RenameBundles(bundles: seq<Bundle>, key: string, prefix: string): (r: seq<Bundle>)
    ensures |r| == |bundles|
    ensures forall i :: 0 <= i < |bundles| && bundles[i].externalKey != key ==> r[i] == bundles[i]
    ensures forall i :: 0 <= i < |bundles| && bundles[i].externalKey == key ==>
              r[i].externalKey == RenamedKey(prefix, bundles[i].id, key) && r[i].(externalKey := key) == bundles[i]
  {
    seq(|bundles|, i requires 0 <= i < |bundles| =>
      if bundles[i].externalKey == key then bundles[i].(externalKey := RenamedKey(prefix, bundles[i].id, key)) else bundles[i])
  }

  lemma RenameBundlesCorrect(bundles: seq<Bundle>, key: string, prefix: string)
    ensures forall i :: 0 <= i < |bundles| ==> RenameBundles(bundles, key, prefix)[i].externalKey != key
    ensures forall i :: 0 <= i < |bundles| ==>
              RenameBundles(bundles, key, prefix)[i].id == bundles[i].id &&
              RenameBundles(bundles, key, prefix)[i].accountId == bundles[i].accountId &&
              RenameBundles(bundles, key, prefix)[i].createdDate == bundles[i].createdDate
  {
    forall i | 0 <= i < |bundles| ensures RenameBundles(bundles, key, prefix)[i].externalKey != key {
      if bundles[i].externalKey == key { RenamedKeyReleasesKey(prefix, bundles[i].id, key); }
    }
  }

  /** The bundles whose key is "like" `key`, in table order. */
  function LikeKeyBundles(bundles: seq<Bundle>, key: string): seq<Bundle>
    decreases |bundles|
  {
    if bundles == [] then []
    else LikeKeyBundles(bundles[..|bundles| - 1], key) +
         (if LikeKey(bundles[|bundles| - 1].externalKey, key) then [bundles[|bundles| - 1]] else [])
  }

  /** The subscriptions of one bundle that are not ADD_ONs, in table order. */
  function NonAddOns(subscriptions: seq<Subscription>, bundleId: BundleId): seq<Subscription>
    decreases |subscriptions|
  {
    if subscriptions == [] then []
    else NonAddOns(subscriptions[..|subscriptions| - 1], bundleId) +
         (var s := subscriptions[|subscriptions| - 1];
          if s.bundleId == bundleId && s.category != AddOn then [s] else [])
  }

  lemma {:induction false} NonAddOnsMembers(subscriptions: seq<Subscription>, bundleId: BundleId)
    ensures forall s :: s in NonAddOns(subscriptions, bundleId) <==>
              s in subscriptions && s.bundleId == bundleId && s.category != AddOn
    decreases |subscriptions|
  {
    if subscriptions != [] {
      NonAddOnsMembers(subscriptions[..|subscriptions| - 1], bundleId);
      assert subscriptions == subscriptions[..|subscriptions| - 1] + [subscriptions[|subscriptions| - 1]];
    }
  }

  function SubscriptionIds(subscriptions: seq<Subscription>): (r: seq<SubscriptionId>)
    ensures |r| == |subscriptions|
    ensures forall i :: 0 <= i < |r| ==> r[i] == subscriptions[i].id
  {
    seq(|subscriptions|, i requires 0 <= i < |subscriptions| => subscriptions[i].id)
  }

  /** The non-ADD_ON subscriptions of the given bundles, bundle by bundle. */
  function NonAddOnsOf(bundles: seq<Bundle>, subscriptions: seq<Subscription>): seq<Subscription>
    decreases |bundles|
  {
    if bundles == [] then []
    else NonAddOnsOf(bundles[..|bundles| - 1], subscriptions) + NonAddOns(subscriptions, bundles[|bundles| - 1].id)
  }

  lemma {:induction false} NonAddOnsOfAppend(a: seq<Bundle>, b: seq<Bundle>, subscriptions: seq<Subscription>)
    ensures NonAddOnsOf(a + b, subscriptions) == NonAddOnsOf(a, subscriptions) + NonAddOnsOf(b, subscriptions)
    decreases |b|
  {
    if b == [] {
      assert a + b == a;
    } else {
      var init := b[..|b| - 1];
      NonAddOnsOfAppend(a, init, subscriptions);
      assert (a + b)[..|a + b| - 1] == a + init;
      assert (a + b)[|a + b| - 1] == b[|b| - 1];
    }
  }

  /** The j-th non-ADD_ON subscription of the i-th bundle is one of the
      bundles' non-ADD_ON subscriptions. */
  lemma NonAddOnsOfContains(bundles: seq<Bundle>, subscriptions: seq<Subscription>, i: nat, j: nat)
    requires i < |bundles| && j < |NonAddOns(subscriptions, bundles[i].id)|
    ensures NonAddOns(subscriptions, bundles[i].id)[j] in NonAddOnsOf(bundles, subscriptions)
  {
    var here := NonAddOns(subscriptions, bundles[i].id);
    assert here[j] in here;
    NonAddOnsMembers(subscriptions, bundles[i].id);
    NonAddOnsOfMembers(bundles, subscriptions);
    assert bundles[i] in bundles;
  }

  lemma SubscriptionIdsAppend(a: seq<Subscription>, b: seq<Subscription>)
    ensures SubscriptionIds(a + b) == SubscriptionIds(a) + SubscriptionIds(b)
  {
    var l := SubscriptionIds(a + b);
    var r := SubscriptionIds(a) + SubscriptionIds(b);
    forall i | 0 <= i < |l| ensures l[i] == r[i] {
      if i < |a| { assert (a + b)[i] == a[i]; } else { assert (a + b)[i] == b[i - |a|]; }
    }
  }

  lemma {:induction false} NonAddOnsOfMembers(bundles: seq<Bundle>, subscriptions: seq<Subscription>)
    ensures forall s :: s in NonAddOnsOf(bundles, subscriptions) <==>
              s in subscriptions && s.category != AddOn && exists b :: b in bundles && b.id == s.bundleId
    decreases |bundles|
  {
    if bundles != [] {
      var init := bundles[..|bundles| - 1];
      var last := bundles[|bundles| - 1];
      NonAddOnsOfMembers(init, subscriptions);
      NonAddOnsMembers(subscriptions, last.id);
      assert bundles == init + [last];
    }
  }

  /** Renaming twice with the same key and prefix renames once: the renamed
      keys no longer equal the released key. */
  lemma RenameBundlesIdempotent(bundles: seq<Bundle>, key: string, prefix: string)
    ensures RenameBundles(RenameBundles(bundles, key, prefix), key, prefix) == RenameBundles(bundles, key, prefix)
  {
    RenameBundlesCorrect(bundles, key, prefix);
  }
}
