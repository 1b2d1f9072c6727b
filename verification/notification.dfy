/** Per-user notification preferences and the delivery state of one notification. */
module Notifications {
  import opened Wrappers

  /**
   * The two types and two channels the preferences know about; `OtherType`
   * and `OtherMethod` stand for any further constant of those enumerations.
   */
  datatype NotificationType = NEW_SUBSCRIPTION | EXPIRING_SUBSCRIPTION | OtherType
  datatype NotificationMethod = EMAIL | PUSH | OtherMethod
  datatype NotificationStatus = PENDING | SENT | FAILED

  datatype NotificationSetting = NotificationSetting(
    userId: nat,
    emailEnabled: bool,
    pushEnabled: bool,
    newSubscriptionEnabled: bool,
    expiringSubscriptionEnabled: bool)

  /** The switch that governs a channel; a channel without a switch is always on. */
  predicate MethodEnabled(s: NotificationSetting, channel: NotificationMethod) {
    match channel
    case EMAIL => s.emailEnabled
    case PUSH => s.pushEnabled
    case OtherMethod => true
  }

  /** The type switch that governs `t`; a type without a switch is always on. */
  predicate TypeEnabled(s: NotificationSetting, t: NotificationType) {
    match t
    case NEW_SUBSCRIPTION => s.newSubscriptionEnabled
    case EXPIRING_SUBSCRIPTION => s.expiringSubscriptionEnabled
    case OtherType => true
  }

  /** `shouldSendNotification`: the channel checks first, then the type checks. */
  function ShouldSendNotification(s: NotificationSetting, t: NotificationType, channel: NotificationMethod): (send: bool)
    ensures send <==> MethodEnabled(s, channel) && TypeEnabled(s, t)
  {
    if channel == EMAIL && !s.emailEnabled then false
    else if channel == PUSH && !s.pushEnabled then false
    else if t == NEW_SUBSCRIPTION && !s.newSubscriptionEnabled then false
    else if t == EXPIRING_SUBSCRIPTION && !s.expiringSubscriptionEnabled then false
    else true
  }

  /** `updateSettings`: each switch takes its argument when one is given and keeps its value otherwise. */
  function UpdateSettings(s: NotificationSetting, email: Option<bool>, push: Option<bool>,
                          newSubscription: Option<bool>, expiring: Option<bool>): (r: NotificationSetting)
    ensures r.userId == s.userId
    ensures email.Some? ==> r.emailEnabled == email.value
    ensures email.None? ==> r.emailEnabled == s.emailEnabled
    ensures push.Some? ==> r.pushEnabled == push.value
    ensures push.None? ==> r.pushEnabled == s.pushEnabled
    ensures newSubscription.Some? ==> r.newSubscriptionEnabled == newSubscription.value
    ensures newSubscription.None? ==> r.newSubscriptionEnabled == s.newSubscriptionEnabled
    ensures expiring.Some? ==> r.expiringSubscriptionEnabled == expiring.value
    ensures expiring.None? ==> r.expiringSubscriptionEnabled == s.expiringSubscriptionEnabled
  {
    NotificationSetting(
      s.userId,
      if email.Some? then email.value else s.emailEnabled,
      if push.Some? then push.value else s.pushEnabled,
      if newSubscription.Some? then newSubscription.value else s.newSubscriptionEnabled,
      if expiring.Some? then expiring.value else s.expiringSubscriptionEnabled)
  }

  /** An update with no arguments changes nothing, and repeating an update changes nothing more. */
  lemma UpdateIdempotent(s: NotificationSetting, email: Option<bool>, push: Option<bool>,
                         newSubscription: Option<bool>, expiring: Option<bool>)
    ensures UpdateSettings(s, None, None, None, None) == s
    ensures var once := UpdateSettings(s, email, push, newSubscription, expiring);
      UpdateSettings(once, email, push, newSubscription, expiring) == once
  {
  }

  /** Switching a channel off stops every notification on it and leaves the other channels' decisions alone. */
  lemma DisablingChannelSilencesIt(s: NotificationSetting, t: NotificationType, m: NotificationMethod)
    ensures !ShouldSendNotification(UpdateSettings(s, Some(false), None, None, None), t, EMAIL)
    ensures !ShouldSendNotification(UpdateSettings(s, None, Some(false), None, None), t, PUSH)
    ensures m != EMAIL ==>
      ShouldSendNotification(UpdateSettings(s, Some(false), None, None, None), t, m) == ShouldSendNotification(s, t, m)
  {
  }

  /** `createDefault`: e-mail on, push off, both types on. */
  function CreateDefault(userId: nat): (s: NotificationSetting)
    ensures s.userId == userId
    ensures forall t :: ShouldSendNotification(s, t, EMAIL) && !ShouldSendNotification(s, t, PUSH)
  {
    NotificationSetting(userId, true, false, true, true)
  }

  datatype Notification = Notification(
    id: nat,
    userId: nat,
    subscriptionId: Option<nat>,
    notificationType: NotificationType,
    title: string,
    content: string,
    channel: NotificationMethod,
    status: NotificationStatus,
    sentAt: Option<int>,
    failureReason: Option<string>)

  /** A notification as the builder makes it: PENDING, never sent, no failure. */
  function NewNotification(id: nat, userId: nat, subscriptionId: Option<nat>, t: NotificationType,
                           title: string, content: string, channel: NotificationMethod): (n: Notification)
    ensures n.status == PENDING && n.sentAt.None? && n.failureReason.None?
    ensures !CanRetry(n)
  {
    Notification(id, userId, subscriptionId, t, title, content, channel, PENDING, None, None)
  }

  /** Everything but the delivery state is the same. */
  predicate SameMessage(a: Notification, b: Notification) {
    && a.id == b.id && a.userId == b.userId && a.subscriptionId == b.subscriptionId
    && a.notificationType == b.notificationType && a.title == b.title && a.content == b.content
    && a.channel == b.channel
  }

  /** `markAsSent`: SENT at `now`, any earlier failure reason cleared. */
  function MarkAsSent(n: Notification, now: int): (r: Notification)
    ensures r.status == SENT && r.sentAt == Some(now) && r.failureReason.None?
    ensures SameMessage(r, n)
  {
    n.(status := SENT, sentAt := Some(now), failureReason := None)
  }

  /** `markAsFailed`: FAILED with the given reason; the sending time is untouched. */
  function MarkAsFailed(n: Notification, reason: Option<string>): (r: Notification)
    ensures r.status == FAILED && r.failureReason == reason && r.sentAt == n.sentAt
    ensures SameMessage(r, n)
  {
    n.(status := FAILED, failureReason := reason)
  }

  /** `canRetry`. */
  predicate CanRetry(n: Notification) {
    n.status == FAILED
  }

  /** `prepareForRetry`: a failed notification goes back to PENDING with no reason; any other is left as it is. */
  function PrepareForRetry(n: Notification): (r: Notification)
    ensures CanRetry(n) ==> r == n.(status := PENDING, failureReason := None)
    ensures !CanRetry(n) ==> r == n
    ensures !CanRetry(r)
  {
    if CanRetry(n) then n.(status := PENDING, failureReason := None) else n
  }

  /** A failure can be retried once: preparing it yields a PENDING notification that is no longer retryable. */
  lemma RetryCycle(n: Notification, reason: Option<string>)
    ensures CanRetry(MarkAsFailed(n, reason))
    ensures var p := PrepareForRetry(MarkAsFailed(n, reason));
      p.status == PENDING && p.failureReason.None? && SameMessage(p, n) && PrepareForRetry(p) == p
  {
  }

  /** A sent notification is never retried. */
  lemma SentIsFinal(n: Notification, now: int)
    ensures !CanRetry(MarkAsSent(n, now)) && PrepareForRetry(MarkAsSent(n, now)) == MarkAsSent(n, now)
  {
  }
}
