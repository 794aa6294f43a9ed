/**
 The repository's own logic over the notification and subscription tables:
 the de-duplication gate for fetched notifications, the guarded insert, and
 the reshaping of enriched subscription rows into the public subscription
 shape. Everything else the repository does is a plain call into a table.
 */
module Repository {
  import opened Entities
  import opened NotificationStore

  /** `a` is obtained from `b` by deleting elements: same relative order,
      nothing added. */
  ghost predicate IsSubsequence<T>(a: seq<T>, b: seq<T>)
    decreases |b|
  {
    |a| <= |b|
    && (a == []
        || (a[0] == b[0] && IsSubsequence(a[1..], b[1..]))
        || IsSubsequence(a, b[1..]))
  }

  /** Kotlin's `filterNot { existing.contains(it.id) }`: drop every
      candidate whose id is in `existing`, keeping the order of the rest. */
  function WithoutIds(candidates: seq<Notification>, existing: set<string>): (r: seq<Notification>)
    ensures |r| <= |candidates|
    ensures IsSubsequence(r, candidates)
    ensures forall n :: n in r <==> n in candidates && n.id !in existing
    ensures forall n :: multiset(r)[n] == if n.id in existing then 0 else multiset(candidates)[n]
    ensures (forall n :: n in candidates ==> n.id !in existing) ==> r == candidates
  {
    if candidates == [] then []
    else
      var c := candidates[0];
      var rest := WithoutIds(candidates[1..], existing);
      assert candidates == [c] + candidates[1..];
      assert IsSubsequence(rest, candidates) by {
        assert rest == [] || IsSubsequence(rest, candidates[1..]);
      }
      if c.id in existing then rest
      else
        assert ([c] + rest)[1..] == rest;
        [c] + rest
  }

  /** `onlyNewNotifications(subscriptionId, notifications)`: the candidates
      whose id is not yet stored for that subscription, in their original
      order. Ids stored under OTHER subscriptions do not stop a candidate.
      The function returns no store: the gate only reads the table. */
  function OnlyNewNotifications(store: Store, sid: Long, candidates: seq<Notification>): (r: seq<Notification>)
    ensures |r| <= |candidates|
    ensures IsSubsequence(r, candidates)
    ensures forall n :: n in r <==> n in candidates && !StoredUnder(store, sid, n.id)
    ensures forall n :: multiset(r)[n] == if StoredUnder(store, sid, n.id) then 0 else multiset(candidates)[n]
    ensures (forall i :: 0 <= i < |store| ==> store[i].subscriptionId != sid) ==> r == candidates
  {
    WithoutIds(candidates, ListIds(store, sid))
  }

  /** `addNotification(notification)`: look the id up across the whole
      table and append the row only when the lookup finds nothing. */
  function AddNotification(store: Store, n: Notification): (r: Store)
    ensures Stored(store, n.id) ==> r == store
    ensures !Stored(store, n.id) ==> r == store + [n]
    ensures Stored(r, n.id)
    ensures UniqueIds(store) ==> UniqueIds(r)
  {
    match Get(store, n.id)
    case Some(_) => store
    case None =>
      assert Stored(Add(store, n), n.id) by {
        assert Add(store, n)[|store|].id == n.id;
      }
      Add(store, n)
  }

  /** Adding a notification with the same id again, whatever its payload,
      leaves the table as the first add left it: the first row is kept. */
  lemma AddNotificationIdempotent(store: Store, n: Notification, m: Notification)
    requires m.id == n.id
    ensures AddNotification(AddNotification(store, n), m) == AddNotification(store, n)
  {
  }

  /** On a table without duplicate ids, after `addNotification(n)` exactly
      one row carries `n.id`, whether or not it was there before. */
  lemma ExactlyOneRowAfterAdd(store: Store, n: Notification)
    requires UniqueIds(store)
    ensures CountId(AddNotification(store, n), n.id) == 1
  {
    CountIdUnique(AddNotification(store, n), n.id);
  }

  /** A run of `addNotification` calls, one per element of `ns`, in order. */
  function AddNotifications(store: Store, ns: seq<Notification>): Store
    decreases |ns|
  {
    if ns == [] then store else AddNotifications(AddNotification(store, ns[0]), ns[1..])
  }

  /** A run of adds keeps ids unique. */
  lemma {:induction false} AddNotificationsKeepsUnique(store: Store, ns: seq<Notification>)
    requires UniqueIds(store)
    ensures UniqueIds(AddNotifications(store, ns))
    decreases |ns|
  {
    if ns != [] {
      AddNotificationsKeepsUnique(AddNotification(store, ns[0]), ns[1..]);
    }
  }

  /** A run of adds only appends rows and leaves every id it was given
      stored. */
  lemma {:induction false} AddNotificationsStoresAll(store: Store, ns: seq<Notification>)
    ensures store <= AddNotifications(store, ns)
    ensures forall n :: n in ns ==> Stored(AddNotifications(store, ns), n.id)
    decreases |ns|
  {
    if ns != [] {
      var s1 := AddNotification(store, ns[0]);
      AddNotificationsStoresAll(s1, ns[1..]);
      var fin := AddNotifications(s1, ns[1..]);
      assert Stored(fin, ns[0].id) by {
        var k :| 0 <= k < |s1| && s1[k].id == ns[0].id;
        assert fin[k] == s1[k];
      }
      forall n | n in ns ensures Stored(fin, n.id) {
        if n != ns[0] {
          assert n in ns[1..];
        }
      }
    }
  }

  /** A run of adds whose ids are all already stored changes nothing. */
  lemma {:induction false} AddNotificationsOfStoredIds(store: Store, ns: seq<Notification>)
    requires forall n :: n in ns ==> Stored(store, n.id)
    ensures AddNotifications(store, ns) == store
    decreases |ns|
  {
    if ns != [] {
      assert ns[0] in ns;
      forall n | n in ns[1..] ensures Stored(store, n.id) {
        assert n in ns;
      }
      AddNotificationsOfStoredIds(store, ns[1..]);
    }
  }

  /** Running the adds for `a + b` is running those for `a`, then `b`. */
  lemma {:induction false} AddNotificationsAppend(store: Store, a: seq<Notification>, b: seq<Notification>)
    ensures AddNotifications(store, a + b) == AddNotifications(AddNotifications(store, a), b)
    decreases |a|
  {
    if a != [] {
      assert (a + b)[0] == a[0];
      assert (a + b)[1..] == a[1..] + b;
      AddNotificationsAppend(AddNotification(store, a[0]), a[1..], b);
    } else {
      assert a + b == b;
    }
  }

  /** Double delivery: receiving the same batch twice stores what receiving
      it once stores, and never creates two rows with one id. */
  lemma DoubleDeliveryIsHarmless(store: Store, ns: seq<Notification>)
    ensures AddNotifications(store, ns + ns) == AddNotifications(store, ns)
    ensures UniqueIds(store) ==> UniqueIds(AddNotifications(store, ns + ns))
  {
    AddNotificationsAppend(store, ns, ns);
    if UniqueIds(store) {
      AddNotificationsKeepsUnique(store, ns);
    }
    AddNotificationsStoresAll(store, ns);
    AddNotificationsOfStoredIds(AddNotifications(store, ns), ns);
  }

  /** The gate is per subscription but the insert guard is global: a
      candidate that passes the gate for `sid` is appended by
      `addNotification` exactly when no row of ANY subscription carries its
      id. */
  lemma GatePassedThenInsert(store: Store, sid: Long, candidates: seq<Notification>, n: Notification)
    requires n in OnlyNewNotifications(store, sid, candidates)
    ensures !StoredUnder(store, sid, n.id)
    ensures AddNotification(store, n) == store + [n] <==> !Stored(store, n.id)
  {
    if Stored(store, n.id) {
      assert |AddNotification(store, n)| != |store + [n]|;
    }
  }

  /** The per-subscription gate and the global insert guard, together: a
      candidate whose id is not stored under `sid` passes the gate, and
      `addNotification` then leaves the table unchanged exactly when its id
      is stored under ANOTHER subscription. */
  lemma OtherSubscriptionIdPassesGateButIsDropped(store: Store, sid: Long, candidates: seq<Notification>, n: Notification)
    requires n in candidates && !StoredUnder(store, sid, n.id)
    ensures n in OnlyNewNotifications(store, sid, candidates)
    ensures AddNotification(store, n) == store <==>
      exists i :: 0 <= i < |store| && store[i].id == n.id && store[i].subscriptionId != sid
  {
    if Stored(store, n.id) {
      var i :| 0 <= i < |store| && store[i].id == n.id;
      assert store[i].subscriptionId != sid;
    } else {
      assert |AddNotification(store, n)| != |store|;
    }
  }

  /** A concrete case of the difference: id "n1" stored under subscription
      1 passes the gate for subscription 2, and the insert then drops it. */
  lemma CrossSubscriptionIdPassesGateButIsDropped()
    ensures var n := Notification("n1", 2, 0, "");
            var store := [Notification("n1", 1, 0, "")];
            OnlyNewNotifications(store, 2, [n]) == [n] && AddNotification(store, n) == store
  {
    var n := Notification("n1", 2, 0, "");
    var store := [Notification("n1", 1, 0, "")];
    assert store[0].id == n.id;
  }

  /** Scenario: with "n1" stored for subscription `sid`, the gate applied to
      ["n1", "n2"] lets through only "n2". */
  lemma GateScenario(sid: Long, n1: Notification, n2: Notification)
    requires n1.id == "n1" && n2.id == "n2" && n1.subscriptionId == sid
    ensures OnlyNewNotifications([n1], sid, [n1, n2]) == [n2]
  {
    var existing := ListIds([n1], sid);
    assert n1.id in existing by {
      assert [n1][0] == n1;
    }
    assert n2.id !in existing;
    assert [n1, n2][1..] == [n2];
    assert [n2][1..] == [];
  }

  /** Copy the five shared fields of an enriched row into a subscription. */
  function Reshape(s: SubscriptionWithMetadata): Subscription {
    Subscription(s.id, s.baseUrl, s.topic, s.lastActive, s.notifications)
  }

  /** `toSubscription(s)`: null stays null; otherwise every field is carried
      over under the same name. */
  function ToSubscription(s: Option<SubscriptionWithMetadata>): (r: Option<Subscription>)
    ensures r.None? <==> s.None?
    ensures s.Some? ==>
      && r.value.id == s.value.id
      && r.value.baseUrl == s.value.baseUrl
      && r.value.topic == s.value.topic
      && r.value.lastActive == s.value.lastActive
      && r.value.notifications == s.value.notifications
  {
    match s
    case None => None
    case Some(row) => Some(Reshape(row))
  }

  /** The reshaping loses nothing: different rows give different
      subscriptions. */
  lemma ToSubscriptionInjective(a: Option<SubscriptionWithMetadata>, b: Option<SubscriptionWithMetadata>)
    requires ToSubscription(a) == ToSubscription(b)
    ensures a == b
  {
  }

  /** `toSubscriptionList(list)`: reshape every row, keeping length and
      order; element `i` is what `toSubscription` makes of row `i`. */
  function ToSubscriptionList(list: seq<SubscriptionWithMetadata>): (r: seq<Subscription>)
    ensures |r| == |list|
    ensures forall i :: 0 <= i < |list| ==> ToSubscription(Some(list[i])) == Some(r[i])
  {
    if list == [] then [] else [Reshape(list[0])] + ToSubscriptionList(list[1..])
  }

  /** Reshaping a concatenation is concatenating the reshaped parts. */
  lemma ToSubscriptionListAppend(a: seq<SubscriptionWithMetadata>, b: seq<SubscriptionWithMetadata>)
    ensures ToSubscriptionList(a + b) == ToSubscriptionList(a) + ToSubscriptionList(b)
  {
    var l, r := ToSubscriptionList(a + b), ToSubscriptionList(a) + ToSubscriptionList(b);
    forall i | 0 <= i < |l| ensures l[i] == r[i] {
      if i < |a| {
        assert (a + b)[i] == a[i];
      } else {
        assert (a + b)[i] == b[i - |a|];
      }
    }
  }

  /** Different row lists give different subscription lists. */
  lemma ToSubscriptionListInjective(a: seq<SubscriptionWithMetadata>, b: seq<SubscriptionWithMetadata>)
    requires ToSubscriptionList(a) == ToSubscriptionList(b)
    ensures a == b
  {
    forall i | 0 <= i < |a| ensures a[i] == b[i] {
      ToSubscriptionInjective(Some(a[i]), Some(b[i]));
    }
  }
}
