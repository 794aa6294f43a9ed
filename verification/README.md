# ntfy-android repository layer, modelled in Dafny

This project models the logic that the ntfy Android app's `Repository`
adds on top of its two Room data-access objects (DAOs). It covers four
pieces:

- the de-duplication gate `onlyNewNotifications`;
- the guarded insert `addNotification`;
- the reshaping of `SubscriptionWithMetadata` rows into `Subscription`
  values (`toSubscription`, `toSubscriptionList`);
- the process-wide holder behind `getInstance`.

The notification table is an immutable value: the stored rows in insertion
order (`NotificationStore.Store`, a `seq<Notification>`). The three DAO
calls the repository uses get abstract meanings:

- `listIds(subscriptionId)` is the set of ids of the rows stored for that
  subscription;
- `get(id)` is the first stored row with that id, from any subscription,
  or null;
- `add(notification)` appends a row.

Files:

- `entities.dfy` (module `Entities`): the entity shapes, Kotlin's nullable
  `T?` as `Option`, and `Long`/`Int` as 64- and 32-bit newtypes.
- `notification_store.dfy` (module `NotificationStore`): the abstract
  notification table and its DAO operations.
- `repository.dfy` (module `Repository`): the gate, the guarded insert, the
  reshaping, and the lemmas about them.
- `repository_holder.dfy` (module `RepositoryHolder`): the singleton slot
  as a pure state machine.

One behaviour is kept exactly as the code has it. The gate compares ids
with the rows of the given subscription only (`listIds(subscriptionId)`).
The insert guard compares ids across the whole table (`get(id)`). A
candidate whose id is stored under another subscription therefore passes
the gate, and `addNotification` then does nothing with it.
`Repository.OtherSubscriptionIdPassesGateButIsDropped` states this in
general: a candidate whose id is not stored under the gate's subscription
passes the gate, and the add leaves the table unchanged exactly when the id
is stored under another subscription.
`Repository.CrossSubscriptionIdPassesGateButIsDropped` exhibits a concrete
case.

`onlyNewNotifications` returns only a list and no new table, so it cannot
change the table. This holds by construction.

## Model

| member | source | states |
|---|---|---|
| NotificationStore.ListIds | app/src/main/java/io/heckel/ntfy/data/Repository.kt:49 | an id is in `listIds(sid)` exactly when some stored row of subscription `sid` carries it |
| NotificationStore.Get | app/src/main/java/io/heckel/ntfy/data/Repository.kt:56 | the lookup is null exactly when no row of any subscription carries the id; otherwise it is a stored row with that id |
| NotificationStore.Add | app/src/main/java/io/heckel/ntfy/data/Repository.kt:58 | adding a row keeps every existing row in place and puts the new row after them |
| NotificationStore.CountIdUnique | app/src/main/java/io/heckel/ntfy/data/Repository.kt:55-60 | in a table without duplicate ids, an id occurs once if stored and otherwise not at all |
| Repository.WithoutIds | app/src/main/java/io/heckel/ntfy/data/Repository.kt:50 | `filterNot` on ids returns an order-preserving subsequence of the candidates. It keeps exactly the candidates whose id is not excluded, each as often as in the input. When nothing is excluded it returns the input unchanged |
| Repository.OnlyNewNotifications | app/src/main/java/io/heckel/ntfy/data/Repository.kt:48-51 | the result is a subsequence of the candidates and no longer than them. It holds a candidate, with its original multiplicity, exactly when the candidate's id is not stored for the given subscription. When that subscription has no stored rows, the result equals the input |
| Repository.AddNotification | app/src/main/java/io/heckel/ntfy/data/Repository.kt:55-60 | if any row already carries the id, the table is unchanged; otherwise exactly the new row is appended and all other rows stay as they were. The id is stored afterwards, and unique ids stay unique |
| Repository.AddNotificationIdempotent | app/src/main/java/io/heckel/ntfy/data/Repository.kt:55-60 | adding a second notification with the same id, whatever its payload, leaves the table as the first add left it, so the first row is kept |
| Repository.ExactlyOneRowAfterAdd | app/src/main/java/io/heckel/ntfy/data/Repository.kt:55-60 | on a table without duplicate ids, exactly one row carries the id after the add |
| Repository.AddNotificationsKeepsUnique | app/src/main/java/io/heckel/ntfy/data/Repository.kt:55-60 | a run of adds on a table without duplicate ids never creates two rows with one id |
| Repository.AddNotificationsStoresAll | app/src/main/java/io/heckel/ntfy/data/Repository.kt:55-60 | a run of adds only appends rows, and every id it was given is stored afterwards |
| Repository.AddNotificationsOfStoredIds | app/src/main/java/io/heckel/ntfy/data/Repository.kt:56-57 | a run of adds whose ids are all stored already leaves the table unchanged |
| Repository.AddNotificationsAppend | app/src/main/java/io/heckel/ntfy/data/Repository.kt:55-60 | adding the batch `a + b` is the same as adding `a` and then `b` |
| Repository.DoubleDeliveryIsHarmless | app/src/main/java/io/heckel/ntfy/data/Repository.kt:55-60 | on any table, delivering a batch twice gives the same table as delivering it once; on a table with unique ids, no two rows share an id afterwards |
| Repository.GatePassedThenInsert | app/src/main/java/io/heckel/ntfy/data/Repository.kt:49-58 | a candidate that passes the gate has no row under the gate's subscription. `addNotification` appends it exactly when no row of any subscription carries its id |
| Repository.OtherSubscriptionIdPassesGateButIsDropped | app/src/main/java/io/heckel/ntfy/data/Repository.kt:48-60 | a candidate whose id is not stored under subscription `sid` passes the gate for `sid`; `addNotification` then leaves the table unchanged exactly when some row of another subscription carries that id |
| Repository.CrossSubscriptionIdPassesGateButIsDropped | app/src/main/java/io/heckel/ntfy/data/Repository.kt:49-57 | take id "n1" stored under subscription 1: a candidate with that id passes the gate for subscription 2, and adding it leaves the table unchanged |
| Repository.GateScenario | app/src/main/java/io/heckel/ntfy/data/Repository.kt:48-51 | with "n1" stored for the subscription, the gate applied to ["n1", "n2"] returns only ["n2"] |
| Repository.ToSubscription | app/src/main/java/io/heckel/ntfy/data/Repository.kt:86-97 | null maps to null and a row maps to a subscription. `id`, `baseUrl`, `topic`, `lastActive` and `notifications` are carried over unchanged |
| Repository.ToSubscriptionInjective | app/src/main/java/io/heckel/ntfy/data/Repository.kt:86-97 | the reshaping loses no information: equal results come from equal inputs |
| Repository.ToSubscriptionList | app/src/main/java/io/heckel/ntfy/data/Repository.kt:74-84 | the list keeps its length and order, and element `i` is what `toSubscription` makes of row `i` |
| Repository.ToSubscriptionListAppend | app/src/main/java/io/heckel/ntfy/data/Repository.kt:74-84 | reshaping a concatenation gives the concatenation of the reshaped parts |
| Repository.ToSubscriptionListInjective | app/src/main/java/io/heckel/ntfy/data/Repository.kt:74-84 | different row lists reshape to different subscription lists |
| RepositoryHolder.GetInstance | app/src/main/java/io/heckel/ntfy/data/Repository.kt:101-108 | a filled slot is returned as it is, and the holder does not change. An empty slot gets a new instance built from the given handles, and the construction count goes up by one. Either way the slot then holds the returned instance |
| RepositoryHolder.RunFromFilled | app/src/main/java/io/heckel/ntfy/data/Repository.kt:103-108 | once the slot is filled, every later call returns the held instance, whatever handles it passes, and the holder stays the same |
| RepositoryHolder.RunFromEmpty | app/src/main/java/io/heckel/ntfy/data/Repository.kt:101-108 | from the empty holder, any non-empty run of calls builds exactly one repository, from the first call's handles, and every call returns it |

## Left out

- `getSubscriptionsLiveData` and `getNotificationsLiveData` (Repository.kt lines 15-20 and 44-46) are left out. They are reactive LiveData/Flow streams with no sequential behaviour to state. Only the reshaping they apply is modelled.
- `getSubscriptions` and `getSubscription` (lines 22-30) are left out. They pass a subscription DAO result straight to `toSubscriptionList` or `toSubscription`, which are modelled. The subscription table itself is not modelled.
- `addSubscription`, `removeSubscription`, `removeNotification` and `removeAllNotifications` (lines 32-42 and 62-72) are left out. They only delegate to a DAO. Cascading deletes and the uniqueness of (baseUrl, topic) belong to the Room schema, which is not part of this model.
- The data-access calls `listIds`, `get` and `add` never fail in this model. In the app, a failed store read or write (an I/O fault, a constraint violation) raises an exception that the repository passes to its caller unchanged, and a failed `add` leaves the table as it was. Those failure paths are not modelled, so `Repository.AddNotification` always returns the appended table when the id is new.
- The `synchronized` block, coroutines, `suspend` and `@WorkerThread` are left out. Every call is taken one at a time. The race between the lookup and the insert in `addNotification` under concurrent calls is therefore not modelled.
- The log line in `init` (line 12) is left out.
- The entity classes and the DAO interfaces are not part of this model. Their fields follow the repository's use of them: `Notification` has an `id` and a `subscriptionId`, plus two payload fields that the repository never reads. `Subscription` and `SubscriptionWithMetadata` have the five fields that the reshaping copies.
- Object identity is modelled through the holder. An `Instance` is identified by its construction serial number and the handles it was built from, and a DAO handle is an opaque number.
- `AddNotifications` is a run of `addNotification` calls, one per element, as a caller would make them. It is a modelling device for the double-delivery property, not a repository operation.
- `ui/BaseUrl.kt` (dropdown, end icons, text watchers) is UI wiring and is not part of this model.
