/**
 * The client's notification cache (`useNotifications` in
 * hooks/use-notifications.ts): the list shown in the bell menu and the
 * unread count beside it, replaced by a fetch, extended by realtime inserts
 * and updated at once when notifications are marked read. The requests to
 * the server behind those updates, and the refetch a failed one triggers,
 * are outside the cache: the refetch is `Fetch` again.
 */
module Notifications {
  import opened Wrappers

  /** A row of the notifications table as the client receives it. */
  datatype Notification = Notification(
    id: string,
    userId: string,
    title: string,
    message: string,
    kind: string,
    isRead: bool,
    entityType: Option<string>,
    entityId: Option<string>,
    createdAt: string)

  /** The number of unread notifications in a list. */
  function UnreadIn(ns: seq<Notification>): (n: nat)
    ensures n <= |ns|
  {
    if ns == [] then 0 else (if ns[0].isRead then 0 else 1) + UnreadIn(ns[1..])
  }

  /** The number of unread notifications that carry `id`. */
  function UnreadWithId(ns: seq<Notification>, id: string): (n: nat)
    ensures n <= UnreadIn(ns)
  {
    if ns == [] then 0 else (if !ns[0].isRead && ns[0].id == id then 1 else 0) + UnreadWithId(ns[1..], id)
  }

  /** `prev.map(n => n.id === id ? { ...n, is_read: true } : n)`. */
  function MarkedRead(ns: seq<Notification>, id: string): (r: seq<Notification>)
    ensures |r| == |ns|
    ensures forall i :: 0 <= i < |ns| ==> r[i] == if ns[i].id == id then ns[i].(isRead := true) else ns[i]
  {
    seq(|ns|, i requires 0 <= i < |ns| => if ns[i].id == id then ns[i].(isRead := true) else ns[i])
  }

  /** `prev.map(n => ({ ...n, is_read: true }))`. */
  function AllRead(ns: seq<Notification>): (r: seq<Notification>)
    ensures |r| == |ns|
    ensures forall i :: 0 <= i < |ns| ==> r[i] == ns[i].(isRead := true)
  {
    seq(|ns|, i requires 0 <= i < |ns| => ns[i].(isRead := true))
  }

  /** Marking one id read removes exactly the unread notifications under that id from the count. */
  lemma {:induction false} MarkedReadCount(ns: seq<Notification>, id: string)
    ensures UnreadIn(MarkedRead(ns, id)) + UnreadWithId(ns, id) == UnreadIn(ns)
  {
    if ns != [] {
      MarkedReadCount(ns[1..], id);
      assert MarkedRead(ns, id)[1..] == MarkedRead(ns[1..], id);
    }
  }

  /** After marking everything read nothing is unread. */
  lemma {:induction false} AllReadCount(ns: seq<Notification>)
    ensures UnreadIn(AllRead(ns)) == 0
  {
    if ns != [] {
      AllReadCount(ns[1..]);
      assert AllRead(ns)[1..] == AllRead(ns[1..]);
    }
  }

  /** Marking the same id read twice is marking it once. */
  lemma MarkedReadIdempotent(ns: seq<Notification>, id: string)
    ensures MarkedRead(MarkedRead(ns, id), id) == MarkedRead(ns, id)
  {
  }

  /** The unread count of a list with one more notification in front. */
  lemma UnreadOfPrepended(n: Notification, ns: seq<Notification>)
    ensures UnreadIn([n] + ns) == UnreadIn(ns) + (if n.isRead then 0 else 1)
  {
    assert ([n] + ns)[1..] == ns;
  }

  /** What the list request comes back with: not ok, a body whose members may be absent, or a thrown fetch. */
  datatype FetchOutcome = NotOk | Ok(data: Option<seq<Notification>>, unreadCount: Option<nat>) | FetchThrew

  class NotificationCache {
    var notifications: seq<Notification>
    var unreadCount: int
    var isLoading: bool

    /** The count agrees with the list. */
    predicate Consistent()
      reads this
    {
      unreadCount == UnreadIn(notifications)
    }

    constructor ()
      ensures notifications == [] && unreadCount == 0 && isLoading && Consistent()
    {
      notifications := [];
      unreadCount := 0;
      isLoading := true;
    }

    /** `fetchNotifications`: an ok answer replaces the list and the count, defaulting to nothing; loading ends either way. */
    method Fetch(o: FetchOutcome)
      modifies this
      ensures o.Ok? ==> notifications == o.data.GetOr([]) && unreadCount == o.unreadCount.GetOr(0)
      ensures !o.Ok? ==> notifications == old(notifications) && unreadCount == old(unreadCount)
      ensures !isLoading
    {
      if o.Ok? {
        notifications := o.data.GetOr([]);
        unreadCount := o.unreadCount.GetOr(0);
      }
      isLoading := false;
    }

    /** A realtime insert: the new notification goes in front and the count goes up by one. */
    method Insert(n: Notification)
      modifies this`notifications, this`unreadCount
      ensures notifications == [n] + old(notifications) && unreadCount == old(unreadCount) + 1
      ensures old(Consistent()) && !n.isRead ==> Consistent()
    {
      UnreadOfPrepended(n, notifications);
      notifications := [n] + notifications;
      unreadCount := unreadCount + 1;
    }

    /**
     * `markAsRead`: every notification under `id` is marked read and the
     * count drops by one, never below zero. The count stays right when
     * exactly one unread notification carries the id, which is how the bell
     * menu calls it.
     */
    method MarkAsRead(id: string)
      modifies this`notifications, this`unreadCount
      ensures notifications == MarkedRead(old(notifications), id)
      ensures unreadCount == if old(unreadCount) - 1 < 0 then 0 else old(unreadCount) - 1
      ensures old(Consistent()) && UnreadWithId(old(notifications), id) == 1 ==> Consistent()
    {
      MarkedReadCount(notifications, id);
      notifications := MarkedRead(notifications, id);
      unreadCount := if unreadCount - 1 < 0 then 0 else unreadCount - 1;
    }

    /** `markAllAsRead`: every notification read and the count zero. */
    method MarkAllAsRead()
      modifies this`notifications, this`unreadCount
      ensures notifications == AllRead(old(notifications)) && unreadCount == 0
      ensures Consistent()
    {
      AllReadCount(notifications);
      notifications := AllRead(notifications);
      unreadCount := 0;
    }
  }

  /**
   * Marking a notification that is already read still lowers the count: with
   * nothing unread under the id, the count after the update no longer agrees
   * with the list. The bell menu only marks unread notifications.
   */
  lemma MarkingReadAgainDrifts(ns: seq<Notification>, id: string)
    requires UnreadWithId(ns, id) == 0 && UnreadIn(ns) > 0
    ensures UnreadIn(MarkedRead(ns, id)) == UnreadIn(ns)
    ensures UnreadIn(ns) - 1 != UnreadIn(MarkedRead(ns, id))
  {
    MarkedReadCount(ns, id);
  }
}
