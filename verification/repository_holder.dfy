/**
 The process-wide holder behind `Repository.getInstance`: a single slot
 that the first call fills and every later call reads back, whatever
 table handles it is given. Calls are taken one at a time.
 */
module RepositoryHolder {
  import opened Entities

  /** A handle on a data-access object; only its identity matters here. */
  type DaoHandle = nat

  /** A constructed repository, identified by the handles it was built from
      and by the number of its construction in the holder's lifetime. */
  datatype Instance = Instance(serial: nat, subscriptionDao: DaoHandle, notificationDao: DaoHandle)

  /** The companion object's state: the `instance` slot, and how many times
      a repository has been constructed. */
  datatype Holder = Holder(slot: Option<Instance>, constructed: nat)

  /** The state before any call. */
  const Empty := Holder(None, 0)

  /** A filled slot holds the one instance constructed so far. */
  ghost predicate Valid(h: Holder) {
    (h.slot.None? <==> h.constructed == 0)
    && (h.slot.Some? ==> h.constructed == 1 && h.slot.value.serial == 1)
  }

  /** `getInstance(subscriptionDao, notificationDao)`: reuse the held
      instance, or construct one from the given handles when the slot is
      empty; in both cases the slot then holds the returned instance. */
  function GetInstance(h: Holder, subscriptionDao: DaoHandle, notificationDao: DaoHandle): (r: (Holder, Instance))
    ensures Valid(h) ==> Valid(r.0)
    ensures r.0.slot == Some(r.1)
    ensures h.slot.Some? ==> r.1 == h.slot.value && r.0 == h
    ensures h.slot.None? ==> r.1.subscriptionDao == subscriptionDao && r.1.notificationDao == notificationDao
    ensures h.slot.None? ==> r.0.constructed == h.constructed + 1
  {
    var newInstance :=
      match h.slot
      case Some(i) => i
      case None => Instance(h.constructed + 1, subscriptionDao, notificationDao);
    var constructed := if h.slot.None? then h.constructed + 1 else h.constructed;
    (Holder(Some(newInstance), constructed), newInstance)
  }

  /** A sequence of calls, each with its own pair of handles: the final
      holder and the instance each call returned. */
  function Run(h: Holder, calls: seq<(DaoHandle, DaoHandle)>): (Holder, seq<Instance>)
    decreases |calls|
  {
    if calls == [] then (h, [])
    else
      var (h1, i) := GetInstance(h, calls[0].0, calls[0].1);
      var (hn, rest) := Run(h1, calls[1..]);
      (hn, [i] + rest)
  }

  /** From a filled slot, every call of a run returns the held instance and
      the holder never changes. */
  lemma {:induction false} RunFromFilled(h: Holder, calls: seq<(DaoHandle, DaoHandle)>)
    requires h.slot.Some?
    ensures Run(h, calls).0 == h
    ensures |Run(h, calls).1| == |calls|
    ensures forall k :: 0 <= k < |calls| ==> Run(h, calls).1[k] == h.slot.value
    decreases |calls|
  {
    if calls != [] {
      RunFromFilled(h, calls[1..]);
    }
  }

  /** From the empty holder, a non-empty run constructs exactly one
      repository, from the first call's handles, and every call returns
      that same instance whatever handles the later calls pass. */
  lemma RunFromEmpty(calls: seq<(DaoHandle, DaoHandle)>)
    requires |calls| > 0
    ensures Run(Empty, calls).0.constructed == 1
    ensures |Run(Empty, calls).1| == |calls|
    ensures forall k :: 0 <= k < |calls| ==>
      Run(Empty, calls).1[k] == Instance(1, calls[0].0, calls[0].1)
  {
    var (h1, i) := GetInstance(Empty, calls[0].0, calls[0].1);
    RunFromFilled(h1, calls[1..]);
  }
}
