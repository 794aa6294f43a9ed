/**
 An abstract, sequential notification table: the rows in insertion order,
 with the three lookups and the one write the repository uses. It stands
 for the notification data-access object, whose storage engine is not part
 of this model.
 */
module NotificationStore {
  import opened Entities

  type Store = seq<Notification>

  /** Some stored row carries `id`, whatever its subscription. */
  ghost predicate Stored(store: Store, id: string) {
    exists i :: 0 <= i < |store| && store[i].id == id
  }

  /** Some stored row of subscription `sid` carries `id`. */
  ghost predicate StoredUnder(store: Store, sid: Long, id: string) {
    exists i :: 0 <= i < |store| && store[i].subscriptionId == sid && store[i].id == id
  }

  /** No two stored rows share an id. */
  ghost predicate UniqueIds(store: Store) {
    forall i, j :: 0 <= i < j < |store| ==> store[i].id != store[j].id
  }

  /** Number of stored rows carrying `id`. */
  function CountId(store: Store, id: string): nat {
    if store == [] then 0
    else (if store[0].id == id then 1 else 0) + CountId(store[1..], id)
  }

  /** `listIds(subscriptionId)`: the ids of the rows stored for one
      subscription. */
  function ListIds(store: Store, sid: Long): (ids: set<string>)
    ensures forall id :: id in ids <==> StoredUnder(store, sid, id)
  {
    set i | 0 <= i < |store| && store[i].subscriptionId == sid :: store[i].id
  }

  /** `get(id)`: the first stored row carrying `id`, or null when there is
      none. The lookup is global: it ignores the row's subscription. */
  function Get(store: Store, id: string): (r: Option<Notification>)
    ensures r.None? <==> !Stored(store, id)
    ensures r.Some? ==> r.value in store && r.value.id == id
  {
    if store == [] then None
    else if store[0].id == id then Some(store[0])
    else
      var r := Get(store[1..], id);
      assert r.None? ==> !Stored(store, id) by {
        if r.None? {
          forall k | 0 <= k < |store| ensures store[k].id != id {
            if k > 0 { assert store[k] == store[1..][k - 1]; }
          }
        }
      }
      assert r.Some? ==> Stored(store, id) by {
        if r.Some? {
          var k :| 0 <= k < |store[1..]| && store[1..][k] == r.value;
          assert store[k + 1].id == id;
        }
      }
      r
  }

  /** `add(notification)`: append one row. */
  function Add(store: Store, n: Notification): (r: Store)
    ensures |r| == |store| + 1 && r[..|store|] == store && r[|store|] == n
  {
    store + [n]
  }

  /** With unique ids, a stored id occurs exactly once. */
  lemma {:induction false} CountIdUnique(store: Store, id: string)
    requires UniqueIds(store)
    ensures CountId(store, id) == (if Stored(store, id) then 1 else 0)
  {
    if store != [] {
      var tail := store[1..];
      assert UniqueIds(tail) by {
        forall i, j | 0 <= i < j < |tail| ensures tail[i].id != tail[j].id {
          assert tail[i] == store[i + 1] && tail[j] == store[j + 1];
        }
      }
      CountIdUnique(tail, id);
      if store[0].id == id {
        assert !Stored(tail, id) by {
          forall k | 0 <= k < |tail| ensures tail[k].id != id {
            assert tail[k] == store[k + 1];
          }
        }
      } else {
        assert Stored(store, id) <==> Stored(tail, id) by {
          if Stored(store, id) {
            var k :| 0 <= k < |store| && store[k].id == id;
            assert tail[k - 1].id == id;
          }
          if Stored(tail, id) {
            var k :| 0 <= k < |tail| && tail[k].id == id;
            assert store[k + 1].id == id;
          }
        }
      }
    }
  }
}
