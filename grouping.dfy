/** Grouping of subscriptions by bundle and of events by subscription: the
    multi-value maps built when an account's subscriptions are loaded. */
module Grouping {
  import opened Events

  /** The elements of `s` whose key is `k`, in their original order. */
  function WithKey<T(!new), K(==)>(s: seq<T>, key: T -> K, k: K): (r: seq<T>)
    decreases |s|
  {
    if s == [] then []
    else WithKey(s[..|s| - 1], key, k) + (if key(s[|s| - 1]) == k then [s[|s| - 1]] else [])
  }

  function Keys<T(!new), K(==)>(s: seq<T>, key: T -> K): set<K> {
    set i | 0 <= i < |s| :: key(s[i])
  }

  /** The reference grouping: one entry per key that occurs, holding exactly
      the elements with that key in input order. */
  ghost function Grouped<T(!new), K>(s: seq<T>, key: T -> K): map<K, seq<T>> {
    map k | k in Keys(s, key) :: WithKey(s, key, k)
  }

  lemma {:induction false} WithKeyMembers<T(!new), K>(s: seq<T>, key: T -> K, k: K)
    ensures forall x {:trigger x in WithKey(s, key, k)} :: x in WithKey(s, key, k) <==> x in s && key(x) == k
    decreases |s|
  {
    if s != [] {
      WithKeyMembers(s[..|s| - 1], key, k);
      assert s == s[..|s| - 1] + [s[|s| - 1]];
    }
  }

  /** A key has a non-empty group exactly when some element carries it. */
  lemma {:induction false} WithKeyNonEmpty<T(!new), K>(s: seq<T>, key: T -> K, k: K)
    ensures WithKey(s, key, k) != [] <==> k in Keys(s, key)
  {
    WithKeyMembers(s, key, k);
    if k in Keys(s, key) {
      var i :| 0 <= i < |s| && key(s[i]) == k;
      assert s[i] in WithKey(s, key, k);
    }
    if WithKey(s, key, k) != [] {
      var x := WithKey(s, key, k)[0];
      assert x in WithKey(s, key, k);
      var i :| 0 <= i < |s| && s[i] == x;
      assert key(s[i]) in Keys(s, key);
    }
  }

  /** Walks the input once, appending each element to the list of its key and
      creating that list on first sight. */
  method GroupBy<T(!new), K(==)>(s: seq<T>, key: T -> K) returns (result: map<K, seq<T>>)
    ensures result == Grouped(s, key)
    ensures forall k :: k in result ==> result[k] != []
  {
    result := map[];
    var i := 0;
    while i < |s|
      invariant 0 <= i <= |s|
      invariant result == Grouped(s[..i], key)
    {
      var k := key(s[i]);
      WithKeyNonEmpty(s[..i], key, k);
      assert WithKey(s[..i + 1], key, k) == WithKey(s[..i], key, k) + [s[i]] by {
        assert s[..i + 1][..i] == s[..i];
      }
      if k !in result {
        result := result[k := []];
      }
      result := result[k := result[k] + [s[i]]];
      assert s[..i + 1][..i] == s[..i];
      assert Keys(s[..i + 1], key) == Keys(s[..i], key) + {k} by {
        forall x | x in Keys(s[..i + 1], key) ensures x in Keys(s[..i], key) + {k} {
          var j :| 0 <= j < i + 1 && key(s[..i + 1][j]) == x;
          if j < i { assert key(s[..i][j]) == x; }
        }
        forall x | x in Keys(s[..i], key) ensures x in Keys(s[..i + 1], key) {
          var j :| 0 <= j < i && key(s[..i][j]) == x;
          assert key(s[..i + 1][j]) == x;
        }
        assert key(s[..i + 1][i]) == k;
      }
      forall k' | k' in Keys(s[..i], key) && k' != k
        ensures WithKey(s[..i + 1], key, k') == WithKey(s[..i], key, k')
      {
      }
      i := i + 1;
    }
    assert s[..i] == s;
    forall k | k in result ensures result[k] != [] {
      WithKeyNonEmpty(s, key, k);
    }
  }

  /** Subscriptions grouped by the bundle they belong to. */
  method GroupSubscriptionsByBundle(subscriptions: seq<Subscription>) returns (result: map<BundleId, seq<Subscription>>)
    ensures result.Keys == set i | 0 <= i < |subscriptions| :: subscriptions[i].bundleId
    ensures forall b :: b in result ==>
              result[b] != [] && forall x :: x in result[b] <==> x in subscriptions && x.bundleId == b
  {
    result := GroupBy(subscriptions, (s: Subscription) => s.bundleId);
    forall b | b in result
      ensures forall x :: x in result[b] <==> x in subscriptions && x.bundleId == b
    {
      WithKeyMembers(subscriptions, (s: Subscription) => s.bundleId, b);
    }
  }

  /** Events grouped by the subscription they belong to. */
  method GroupEventsBySubscription(events: seq<Event>) returns (result: map<SubscriptionId, seq<Event>>)
    ensures result.Keys == set i | 0 <= i < |events| :: events[i].subscriptionId
    ensures forall sid :: sid in result ==>
              result[sid] != [] && forall e :: e in result[sid] <==> e in events && e.subscriptionId == sid
  {
    result := GroupBy(events, (e: Event) => e.subscriptionId);
    forall sid | sid in result
      ensures forall e :: e in result[sid] <==> e in events && e.subscriptionId == sid
    {
      WithKeyMembers(events, (e: Event) => e.subscriptionId, sid);
    }
  }
}
