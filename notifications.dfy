/**
 * The client's notification list: a state field that every operation replaces with a new list
 * (prepend, map, filter, empty), and the unread count derived from it. Ids and timestamps come
 * from the clock in the application; here they are parameters.
 */
module Notifications {
  import opened Wrappers
  import opened Seqs

  datatype Kind = Info | Success | Warning | Error

  datatype Notification = Notification(
    id: string, kind: Kind, title: string, message: string,
    timestamp: int, read: bool, actionUrl: Option<string>, userId: int)

  /** What a caller hands to `addNotification`: everything but id, timestamp and read flag. */
  datatype NotificationInput = NotificationInput(
    kind: Kind, title: string, message: string, actionUrl: Option<string>, userId: int)

  predicate IsUnread(n: Notification) {
    !n.read
  }

  /** `notifications.filter(n => !n.read).length` */
  function UnreadCount(ns: seq<Notification>): nat {
    |Filter(ns, IsUnread)|
  }

  /** No unread item means a count of zero, and the other way round. */
  lemma {:induction false} UnreadCountZero(ns: seq<Notification>)
    ensures UnreadCount(ns) == 0 <==> forall n :: n in ns ==> n.read
  {
    if ns != [] {
      UnreadCountZero(ns[1..]);
      assert forall n :: n in ns ==> n == ns[0] || n in ns[1..];
    }
  }

  /** The item `addNotification` builds: the caller's fields, the given id and time, unread. */
  function Fresh(input: NotificationInput, id: string, timestamp: int): (n: Notification)
    ensures !n.read && n.id == id && n.timestamp == timestamp
    ensures n.kind == input.kind && n.title == input.title && n.message == input.message
    ensures n.actionUrl == input.actionUrl && n.userId == input.userId
  {
    Notification(id, input.kind, input.title, input.message, timestamp, false, input.actionUrl, input.userId)
  }

  /** Putting an unread item at the front raises the count by one. */
  lemma PrependUnread(n: Notification, ns: seq<Notification>)
    requires !n.read
    ensures UnreadCount([n] + ns) == UnreadCount(ns) + 1
  {
    assert ([n] + ns)[1..] == ns;
  }

  /** `prev.map(n => n.id === id ? { ...n, read: true } : n)` */
  function MarkRead(ns: seq<Notification>, id: string): (r: seq<Notification>)
    ensures |r| == |ns|
  {
    if ns == [] then []
    else [if ns[0].id == id then ns[0].(read := true) else ns[0]] + MarkRead(ns[1..], id)
  }

  /** Only the items with that id are touched, and only their read flag, which becomes true. */
  lemma {:induction false} MarkReadTouchesOnlyId(ns: seq<Notification>, id: string)
    ensures forall k :: 0 <= k < |ns| && ns[k].id == id ==> MarkRead(ns, id)[k] == ns[k].(read := true)
    ensures forall k :: 0 <= k < |ns| && ns[k].id != id ==> MarkRead(ns, id)[k] == ns[k]
  {
    if ns != [] {
      MarkReadTouchesOnlyId(ns[1..], id);
      var r := MarkRead(ns, id);
      assert forall k :: 1 <= k < |ns| ==> r[k] == MarkRead(ns[1..], id)[k - 1] && ns[k] == ns[1..][k - 1];
    }
  }

  /** Marking the same id read twice is marking it once. */
  lemma {:induction false} MarkReadIdempotent(ns: seq<Notification>, id: string)
    ensures MarkRead(MarkRead(ns, id), id) == MarkRead(ns, id)
  {
    if ns != [] {
      MarkReadIdempotent(ns[1..], id);
      assert MarkRead(ns, id)[1..] == MarkRead(ns[1..], id);
    }
  }

  /** Afterwards nothing with that id is unread, and the count falls by exactly the unread items with that id. */
  lemma {:induction false} MarkReadCount(ns: seq<Notification>, id: string)
    ensures forall n :: n in MarkRead(ns, id) && n.id == id ==> n.read
    ensures UnreadCount(MarkRead(ns, id)) + |Filter(ns, (n: Notification) => !n.read && n.id == id)| == UnreadCount(ns)
  {
    if ns != [] {
      MarkReadCount(ns[1..], id);
      var r := MarkRead(ns, id);
      assert r[1..] == MarkRead(ns[1..], id);
      assert forall n :: n in r ==> n == r[0] || n in r[1..];
    }
  }

  /** `prev.map(n => ({ ...n, read: true }))` */
  function MarkAllRead(ns: seq<Notification>): (r: seq<Notification>)
    ensures |r| == |ns|
  {
    if ns == [] then [] else [ns[0].(read := true)] + MarkAllRead(ns[1..])
  }

  /** Same length and order, every item read, nothing else about an item changed, no unread left. */
  lemma {:induction false} MarkAllReadMarksAll(ns: seq<Notification>)
    ensures forall k :: 0 <= k < |ns| ==> MarkAllRead(ns)[k] == ns[k].(read := true)
    ensures UnreadCount(MarkAllRead(ns)) == 0
  {
    if ns != [] {
      MarkAllReadMarksAll(ns[1..]);
      var r := MarkAllRead(ns);
      assert forall k :: 1 <= k < |ns| ==> r[k] == MarkAllRead(ns[1..])[k - 1] && ns[k] == ns[1..][k - 1];
      assert r[1..] == MarkAllRead(ns[1..]);
    }
  }

  /** Marking everything read is marking every id read: it agrees with `MarkRead` one id at a time. */
  lemma MarkAllReadCoversMarkRead(ns: seq<Notification>, id: string)
    ensures MarkAllRead(MarkRead(ns, id)) == MarkAllRead(ns)
    ensures MarkRead(MarkAllRead(ns), id) == MarkAllRead(ns)
  {
    MarkReadTouchesOnlyId(ns, id);
    MarkAllReadMarksAll(ns);
    MarkAllReadMarksAll(MarkRead(ns, id));
    MarkReadTouchesOnlyId(MarkAllRead(ns), id);
  }

  function KeepsOtherThan(id: string): Notification -> bool {
    (n: Notification) => n.id != id
  }

  /** `prev.filter(n => n.id !== id)` */
  function Remove(ns: seq<Notification>, id: string): seq<Notification> {
    Filter(ns, KeepsOtherThan(id))
  }

  /** Exactly the items with that id go; every other item stays. */
  lemma RemoveRemovesId(ns: seq<Notification>, id: string)
    ensures forall n :: n in Remove(ns, id) <==> n in ns && n.id != id
  {
    FilterMembershipAll(ns, KeepsOtherThan(id));
  }

  /** The survivors keep their relative order: removing from a concatenation removes from each part. */
  lemma RemoveKeepsOrder(ns: seq<Notification>, ms: seq<Notification>, id: string)
    ensures Remove(ns + ms, id) == Remove(ns, id) + Remove(ms, id)
  {
    FilterAppend(ns, ms, KeepsOtherThan(id));
  }

  /** Removing an id no item carries changes nothing; removing twice is removing once. */
  lemma RemoveAbsent(ns: seq<Notification>, id: string)
    ensures (forall n :: n in ns ==> n.id != id) ==> Remove(ns, id) == ns
    ensures Remove(Remove(ns, id), id) == Remove(ns, id)
  {
    if forall n :: n in ns ==> n.id != id {
      FilterAll(ns, KeepsOtherThan(id));
    }
    FilterMembershipAll(ns, KeepsOtherThan(id));
    FilterAll(Remove(ns, id), KeepsOtherThan(id));
  }

  /** The provider's state: the list and the count the effect derives from it after each change. */
  class NotificationCenter {
    var notifications: seq<Notification>
    var unreadCount: nat

    ghost predicate Valid()
      reads this
    {
      unreadCount == UnreadCount(notifications)
    }

    constructor ()
      ensures Valid()
      ensures notifications == [] && unreadCount == 0
    {
      notifications := [];
      unreadCount := 0;
    }

    /** `addNotification`: the new item goes first, unread; the rest follow in their order. */
    method AddNotification(input: NotificationInput, id: string, timestamp: int)
      requires Valid()
      modifies this
      ensures Valid()
      ensures notifications == [Fresh(input, id, timestamp)] + old(notifications)
      ensures unreadCount == old(unreadCount) + 1
    {
      var n := Fresh(input, id, timestamp);
      PrependUnread(n, notifications);
      notifications := [n] + notifications;
      unreadCount := UnreadCount(notifications);
    }

    method MarkAsRead(id: string)
      requires Valid()
      modifies this
      ensures Valid()
      ensures notifications == MarkRead(old(notifications), id)
      ensures unreadCount <= old(unreadCount)
    {
      MarkReadCount(notifications, id);
      notifications := MarkRead(notifications, id);
      unreadCount := UnreadCount(notifications);
    }

    method MarkAllAsRead()
      requires Valid()
      modifies this
      ensures Valid()
      ensures notifications == MarkAllRead(old(notifications))
      ensures unreadCount == 0
    {
      MarkAllReadMarksAll(notifications);
      notifications := MarkAllRead(notifications);
      unreadCount := UnreadCount(notifications);
    }

    method RemoveNotification(id: string)
      requires Valid()
      modifies this
      ensures Valid()
      ensures notifications == Remove(old(notifications), id)
      ensures unreadCount <= old(unreadCount)
    {
      RemoveCount(notifications, id);
      notifications := Remove(notifications, id);
      unreadCount := UnreadCount(notifications);
    }

    method ClearAll()
      requires Valid()
      modifies this
      ensures Valid()
      ensures notifications == [] && unreadCount == 0
    {
      notifications := [];
      unreadCount := UnreadCount(notifications);
    }
  }

  /** Removing items never raises the unread count. */
  lemma {:induction false} RemoveCount(ns: seq<Notification>, id: string)
    ensures UnreadCount(Remove(ns, id)) <= UnreadCount(ns)
  {
    if ns != [] {
      RemoveCount(ns[1..], id);
    }
  }
}
