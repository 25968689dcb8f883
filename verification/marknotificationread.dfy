/**
 * POST api/mark_notification_read.php: the caller marks one notification,
 * a list of them, or all of their notifications as read.
 */
module MarkNotificationRead {
  import opened Php
  import opened Http
  import opened Schema
  import Db
  import Seqs
  import GetNotifications

  /** What the request asks to mark. */
  datatype Selection = All | Listed(ids: set<int>)

  /** The ids of a `notification_ids` array, each read with intval(). */
  function IdSet(v: Value): set<int> {
    set x | x in Elements(v) :: ToInt(x)
  }

  /**
   * notification_id wins over notification_ids, which wins over a truthy
   * mark_all; a non-array notification_ids is passed over.
   */
  function Requested(input: Value): (r: Checked<Selection>)
    ensures Empty(input) ==> r == Reject(400, "Invalid JSON input")
    ensures !Empty(input) && Isset(input, "notification_id") ==> r == Pass(Listed({ToInt(Get(input, "notification_id"))}))
    ensures (!Empty(input) && !Isset(input, "notification_id") && IsArray(Get(input, "notification_ids"))) ==>
              r == if Empty(Get(input, "notification_ids")) then Reject(400, "No valid notification IDs provided")
                   else Pass(Listed(IdSet(Get(input, "notification_ids"))))
    ensures (!Empty(input) && !Isset(input, "notification_id") && !IsArray(Get(input, "notification_ids"))) ==>
              r == if ToBool(Get(input, "mark_all")) then Pass(All)
                   else Reject(400, "Notification ID(s) or mark_all flag required")
    ensures r.Pass? && r.value.Listed? ==> r.value.ids != {}
  {
    if Empty(input) then Reject(400, "Invalid JSON input")
    else if Isset(input, "notification_id") then Pass(Listed({ToInt(Get(input, "notification_id"))}))
    else if IsArray(Get(input, "notification_ids")) then
      var list := Get(input, "notification_ids");
      if Empty(list) then Reject(400, "No valid notification IDs provided")
      else
        assert Elements(list) != [] by {
          if list.VMap? {
            var key :| key in list.fields;
          }
        }
        assert ToInt(Elements(list)[0]) in IdSet(list);
        Pass(Listed(IdSet(list)))
    else if ToBool(Get(input, "mark_all")) then Pass(All)
    else Reject(400, "Notification ID(s) or mark_all flag required")
  }

  /** A row the validating SELECT returns: requested and owned by the caller. */
  predicate Owned(n: Notification, ids: set<int>, userId: int) {
    n.id in ids && n.userId == userId
  }

  /** The ids the validating SELECT returns, in table order. */
  function OwnedIds(notifications: seq<Notification>, ids: set<int>, userId: int): (r: seq<int>)
    ensures |r| <= |notifications|
    ensures forall k :: 0 <= k < |r| ==> r[k] in ids
  {
    if notifications == [] then []
    else
      var rest := OwnedIds(notifications[1..], ids, userId);
      if Owned(notifications[0], ids, userId) then [notifications[0].id] + rest else rest
  }

  lemma {:induction false} OwnedIdsSnoc(notifications: seq<Notification>, n: Notification, ids: set<int>, userId: int)
    ensures OwnedIds(notifications + [n], ids, userId)
         == OwnedIds(notifications, ids, userId) + (if Owned(n, ids, userId) then [n.id] else [])
  {
    if notifications != [] {
      assert (notifications + [n])[1..] == notifications[1..] + [n];
      OwnedIdsSnoc(notifications[1..], n, ids, userId);
    }
  }

  /** An id comes back exactly when a row with that id is requested and the caller's. */
  lemma {:induction false} OwnedIdsExact(notifications: seq<Notification>, ids: set<int>, userId: int, id: int)
    ensures id in OwnedIds(notifications, ids, userId) <==>
              exists k :: 0 <= k < |notifications| && notifications[k].id == id && Owned(notifications[k], ids, userId)
  {
    if notifications != [] {
      var tail := notifications[1..];
      OwnedIdsExact(tail, ids, userId, id);
      if exists k :: 0 <= k < |tail| && tail[k].id == id && Owned(tail[k], ids, userId) {
        var k :| 0 <= k < |tail| && tail[k].id == id && Owned(tail[k], ids, userId);
        assert notifications[k + 1] == tail[k];
      }
      if exists k :: 0 <= k < |notifications| && notifications[k].id == id && Owned(notifications[k], ids, userId) {
        var k :| 0 <= k < |notifications| && notifications[k].id == id && Owned(notifications[k], ids, userId);
        if k > 0 {
          assert tail[k - 1] == notifications[k];
        }
      }
    }
  }

  /** The fetch loop that builds `$validIds`. */
  method CollectOwnedIds(notifications: seq<Notification>, ids: set<int>, userId: int) returns (valid: seq<int>)
    ensures valid == OwnedIds(notifications, ids, userId)
  {
    valid := [];
    var i := 0;
    while i < |notifications|
      invariant 0 <= i <= |notifications|
      invariant valid == OwnedIds(notifications[..i], ids, userId)
    {
      OwnedIdsSnoc(notifications[..i], notifications[i], ids, userId);
      assert notifications[..i + 1] == notifications[..i] + [notifications[i]];
      var n := notifications[i];
      if n.id in ids && n.userId == userId {
        valid := valid + [n.id];
      }
      i := i + 1;
    }
    assert notifications[..i] == notifications;
  }

  // ---------------------------------------------------------------- the UPDATEs

  /** The WHERE clause of the UPDATE: the selected rows that are still unread. */
  predicate Target(n: Notification, selection: Selection, userId: int, valid: seq<int>) {
    !n.isRead && (if selection.All? then n.userId == userId else n.id in valid)
  }

  function SetRead(n: Notification): Notification {
    n.(isRead := true)
  }

  /** UPDATE notifications SET is_read = 1 WHERE (user_id = ? | id IN (valid)) AND is_read = 0. */
  function MarkRead(notifications: seq<Notification>, selection: Selection, userId: int, valid: seq<int>)
    : (r: seq<Notification>)
    ensures |r| == |notifications|
    ensures forall k :: 0 <= k < |r| ==>
              r[k] == if Target(notifications[k], selection, userId, valid) then SetRead(notifications[k])
                      else notifications[k]
  {
    Seqs.UpdateWhere(notifications, (n: Notification) => Target(n, selection, userId, valid), SetRead)
  }

  /** affected_rows of that UPDATE. */
  function MarkedCount(notifications: seq<Notification>, selection: Selection, userId: int, valid: seq<int>): nat {
    Seqs.Count(notifications, (n: Notification) => Target(n, selection, userId, valid))
  }

  /** After mark_all the caller has no unread notification left, and every other user's rows are as they were. */
  lemma MarkAllClearsUnread(notifications: seq<Notification>, userId: int)
    ensures GetNotifications.UnreadCount(MarkRead(notifications, All, userId, []), userId) == 0
    ensures MarkedCount(notifications, All, userId, []) == GetNotifications.UnreadCount(notifications, userId)
    ensures forall k :: 0 <= k < |notifications| && notifications[k].userId != userId ==>
              MarkRead(notifications, All, userId, [])[k] == notifications[k]
  {
    var after := MarkRead(notifications, All, userId, []);
    Seqs.CountZero(after, (n: Notification) => GetNotifications.Listed(n, userId, true));
    assert forall n :: n in after ==> !GetNotifications.Listed(n, userId, true);
    Seqs.FilterSame(notifications, (n: Notification) => Target(n, All, userId, []),
                    (n: Notification) => GetNotifications.Listed(n, userId, true));
  }

  /** With unique ids, the listed UPDATE touches only the caller's own rows. */
  lemma OnlyOwnedChange(notifications: seq<Notification>, ids: set<int>, userId: int)
    requires Seqs.UniqueBy(notifications, Db.NotificationId)
    ensures var valid := OwnedIds(notifications, ids, userId);
            forall k :: 0 <= k < |notifications| && MarkRead(notifications, Listed(ids), userId, valid)[k] != notifications[k]
              ==> notifications[k].userId == userId && notifications[k].id in ids
  {
    var valid := OwnedIds(notifications, ids, userId);
    forall k | 0 <= k < |notifications| && notifications[k].id in valid
      ensures Owned(notifications[k], ids, userId)
    {
      OwnedIdsExact(notifications, ids, userId, notifications[k].id);
      var j :| 0 <= j < |notifications| && notifications[j].id == notifications[k].id && Owned(notifications[j], ids, userId);
      assert Db.NotificationId(notifications[j]) == Db.NotificationId(notifications[k]);
    }
  }

  /** Marking the same selection again counts nothing and changes nothing. */
  lemma MarkAgain(notifications: seq<Notification>, selection: Selection, userId: int, valid: seq<int>)
    ensures var once := MarkRead(notifications, selection, userId, valid);
            && MarkedCount(once, selection, userId, valid) == 0
            && MarkRead(once, selection, userId, valid) == once
  {
    var once := MarkRead(notifications, selection, userId, valid);
    Seqs.CountZero(once, (n: Notification) => Target(n, selection, userId, valid));
    Seqs.UpdateNothing(once, (n: Notification) => Target(n, selection, userId, valid), SetRead);
  }

  lemma UpdateKeepsIds(notifications: seq<Notification>, next: int, selection: Selection, userId: int, valid: seq<int>)
    requires Db.IdsBelow(notifications, Db.NotificationId, next)
    ensures Db.IdsBelow(MarkRead(notifications, selection, userId, valid), Db.NotificationId, next)
  {
    Db.UpdateIdsBelow(notifications, (n: Notification) => Target(n, selection, userId, valid), SetRead,
                      Db.NotificationId, next);
  }

  /** The answer: the count, and for a listed request the ids that were the caller's. */
  datatype MarkAnswer =
    | AllMarked(markedCount: nat)
    | ListedMarked(markedCount: nat, notificationIds: seq<int>)

  function Message(count: nat): string {
    IntToString(count) + " notification(s) marked as read"
  }

  /** The endpoint. */
  method Mark(db: Db.Database, userId: int, input: Value) returns (resp: Response<MarkAnswer>)
    requires db.Valid()
    modifies db`notifications
    ensures db.Valid()
    ensures Requested(input).Reject? ==>
              resp == Failure(Requested(input).code, Requested(input).error)
              && db.notifications == old(db.notifications)
    ensures Requested(input) == Pass(All) ==>
              var n := MarkedCount(old(db.notifications), All, userId, []);
              && db.notifications == MarkRead(old(db.notifications), All, userId, [])
              && resp == Success(AllMarked(n), Message(n))
    ensures Requested(input).Pass? && Requested(input).value.Listed? ==>
              var selection := Requested(input).value;
              var valid := OwnedIds(old(db.notifications), selection.ids, userId);
              if valid == [] then
                resp == Failure(400, "No valid notifications found") && db.notifications == old(db.notifications)
              else
                var n := MarkedCount(old(db.notifications), selection, userId, valid);
                && db.notifications == MarkRead(old(db.notifications), selection, userId, valid)
                && resp == Success(ListedMarked(n, valid), Message(n))
  {
    var requested := Requested(input);
    if requested.Reject? {
      return Failure(requested.code, requested.error);
    }
    var selection := requested.value;
    var valid: seq<int> := [];
    if selection.Listed? {
      valid := CollectOwnedIds(db.notifications, selection.ids, userId);
      if valid == [] {
        return Failure(400, "No valid notifications found");
      }
    }
    var n := MarkedCount(db.notifications, selection, userId, valid);
    UpdateKeepsIds(db.notifications, db.nextNotificationId, selection, userId, valid);
    db.SetNotifications(MarkRead(db.notifications, selection, userId, valid));
    if selection.All? {
      resp := Success(AllMarked(n), Message(n));
    } else {
      resp := Success(ListedMarked(n, valid), Message(n));
    }
  }
}
