/** The notification read-flag store: each user lists their notifications,
    marks them read and counts the unread ones. */
module NotificationService {
  import opened Domain
  import Query

  /** getNotifications: the user's notifications, highest id (newest) first. */
  function GetNotifications(notifications: seq<Notification>, userId: int): (r: seq<Notification>)
    ensures forall n :: n in r <==> n in notifications && n.userId == userId
    ensures forall n :: multiset(r)[n] == if n.userId == userId then multiset(notifications)[n] else 0
    ensures forall i, j :: 0 <= i < j < |r| ==> r[i].id >= r[j].id
  {
    var mine := Query.Filter(notifications, (n: Notification) => n.userId == userId);
    var r := Query.SortBy(mine, (n: Notification) => 0 - n.id as int);
    assert forall n :: n in r <==> n in mine by {
      forall n ensures n in r <==> n in mine {
        assert n in r <==> multiset(r)[n] > 0;
        assert n in mine <==> multiset(mine)[n] > 0;
      }
    }
    r
  }

  /** getUnreadCount: how many of the user's notifications are not read. */
  function GetUnreadCount(notifications: seq<Notification>, userId: int): (r: nat)
    ensures r == 0 <==> forall i :: 0 <= i < |notifications| && notifications[i].userId == userId ==> notifications[i].read
  {
    if notifications == [] then 0
    else
      (if notifications[0].userId == userId && !notifications[0].read then 1 else 0)
      + GetUnreadCount(notifications[1..], userId)
  }

  /** The count is the size of the `where: { userId, read: false }` query. */
  lemma {:induction false} UnreadCountIsQuerySize(notifications: seq<Notification>, userId: int)
    ensures GetUnreadCount(notifications, userId)
         == |Query.Filter(notifications, (n: Notification) => n.userId == userId && !n.read)|
  {
    if notifications != [] {
      UnreadCountIsQuerySize(notifications[1..], userId);
    }
  }

  /** Marking the notification at `k` read lowers its owner's unread count by
      one when it was unread, and leaves every other count as it was. */
  lemma {:induction false} MarkingReadLowersUnreadCount(notifications: seq<Notification>, k: nat, userId: int)
    requires k < |notifications|
    ensures GetUnreadCount(notifications[k := notifications[k].(read := true)], userId)
         == GetUnreadCount(notifications, userId)
            - (if notifications[k].userId == userId && !notifications[k].read then 1 else 0)
  {
    var t := notifications[k := notifications[k].(read := true)];
    if k > 0 {
      MarkingReadLowersUnreadCount(notifications[1..], k - 1, userId);
      assert t[1..] == notifications[1..][k - 1 := notifications[1..][k - 1].(read := true)];
    } else {
      assert t[1..] == notifications[1..];
    }
  }

  /** A second markAsRead of the same notification changes nothing. */
  lemma MarkingReadIsIdempotent(notifications: seq<Notification>, k: nat)
    requires k < |notifications|
    ensures var once := notifications[k := notifications[k].(read := true)];
            once[k := once[k].(read := true)] == once
  {
  }

  /** markAsRead: the notification must exist and belong to the caller; then
      its read flag, and nothing else, is set. */
  method MarkAsRead(db: Store, notificationId: int, userId: int) returns (r: Result<Notification>)
    requires db.Valid()
    modifies db`notifications
    ensures db.Valid()
    ensures FindByKey(old(db.notifications), NotificationKey, notificationId).None? ==>
              r == Failure(NotificationNotFound) && unchanged(db)
    ensures var f := FindByKey(old(db.notifications), NotificationKey, notificationId);
            f.Some? && old(db.notifications)[f.value].userId != userId ==>
              r == Failure(UnauthorizedToUpdateNotification) && unchanged(db)
    ensures var f := FindByKey(old(db.notifications), NotificationKey, notificationId);
            f.Some? && old(db.notifications)[f.value].userId == userId ==>
              var n := old(db.notifications)[f.value].(read := true);
              r == Success(n) && db.notifications == old(db.notifications)[f.value := n]
  {
    var f := FindByKey(db.notifications, NotificationKey, notificationId);
    if f.None? {
      return Failure(NotificationNotFound);
    }
    var i := f.value;
    if db.notifications[i].userId != userId {
      return Failure(UnauthorizedToUpdateNotification);
    }
    var n := db.notifications[i].(read := true);
    db.notifications := db.notifications[i := n];
    return Success(n);
  }
}
