/**
 The entity shapes the repository layer moves between its callers and the
 local tables: notification rows, subscriptions as callers see them, and
 the enriched subscription rows the subscription table returns.
 */
module Entities {

  /** Kotlin's nullable `T?`: `None` plays the role of `null`. */
  datatype Option<+T> = None | Some(value: T)

  /** Kotlin `Long`: a signed 64-bit integer. Nothing in the model does
      arithmetic on it; the bound only records the width. */
  newtype Long = x: int | -0x8000_0000_0000_0000 <= x < 0x8000_0000_0000_0000

  /** Kotlin `Int`: a signed 32-bit integer. */
  newtype Int = x: int | -0x8000_0000 <= x < 0x8000_0000

  /** One stored notification row. `id` is assigned by the producer, not by
      the table; `subscriptionId` refers to `Subscription.id`. The remaining
      fields stand for the payload, which the repository never inspects. */
  datatype Notification = Notification(
    id: string,
    subscriptionId: Long,
    timestamp: Long,
    message: string
  )

  /** A subscription in the public shape handed to callers. */
  datatype Subscription = Subscription(
    id: Long,
    baseUrl: string,
    topic: string,
    lastActive: Long,
    notifications: Int
  )

  /** A subscription row as the subscription table returns it, joined with
      its notification metadata (last activity, notification count). */
  datatype SubscriptionWithMetadata = SubscriptionWithMetadata(
    id: Long,
    baseUrl: string,
    topic: string,
    lastActive: Long,
    notifications: Int
  )
}
