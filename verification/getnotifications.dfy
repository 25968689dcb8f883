/**
 * GET api/get_notifications.php: the caller's notifications, newest first, a
 * page at a time, optionally only the unread ones, with the caller's unread
 * count beside the page.
 */
module GetNotifications {
  import opened Php
  import opened Http
  import opened Schema
  import Seqs

  /** `isset($_GET['unread_only']) ? (bool)$_GET['unread_only'] : false`; the string "false" is true. */
  predicate UnreadOnlyParam(query: Value) {
    Isset(query, "unread_only") && ToBool(Get(query, "unread_only"))
  }

  /** The WHERE clause: the caller's rows, and only unread ones when asked. */
  predicate Listed(n: Notification, userId: int, unreadOnly: bool) {
    n.userId == userId && (!unreadOnly || !n.isRead)
  }

  function CreatedAt(n: Notification): int {
    n.createdAt
  }

  /** `SELECT COUNT(*) FROM notifications WHERE user_id = ? AND is_read = 0`. */
  function UnreadCount(notifications: seq<Notification>, userId: int): nat {
    Seqs.Count(notifications, (n: Notification) => Listed(n, userId, true))
  }

  /** The rows the WHERE clause selects, in table order. */
  function ListedRows(notifications: seq<Notification>, userId: int, unreadOnly: bool): (r: seq<Notification>)
    ensures forall n :: n in r <==> n in notifications && Listed(n, userId, unreadOnly)
  {
    Seqs.Filter(notifications, (n: Notification) => Listed(n, userId, unreadOnly))
  }

  datatype NotificationPage = NotificationPage(page: Paged<Notification>, unreadCount: nat)

  /** One page of the listed rows ordered by created_at DESC, with pagination over all of them. */
  function PageOf(listed: seq<Notification>, page: int, limit: int): (r: Paged<Notification>)
    requires page >= 1 && limit >= 1
    ensures var offset := Offset(page, limit);
            && |r.items| == Seqs.Min(limit, |listed| - Seqs.Min(offset, |listed|))
            && forall k :: 0 <= k < |r.items| ==> r.items[k] == Seqs.SortDesc(listed, CreatedAt)[offset + k]
    ensures forall n :: n in r.items ==> n in listed
    ensures forall i, j :: 0 <= i < j < |r.items| ==> r.items[i].createdAt >= r.items[j].createdAt
    ensures r.pagination == Pagination(|listed|, page, limit)
  {
    Paginate(Seqs.PageDesc(listed, CreatedAt, Offset(page, limit), limit), |listed|, page, limit)
  }

  /** The answer: one page of the caller's listed rows ordered by created_at DESC, and the unread count. */
  function List(notifications: seq<Notification>, userId: int, query: Value): (r: NotificationPage)
    ensures var listed := ListedRows(notifications, userId, UnreadOnlyParam(query));
            var offset := Offset(PageParam(query), LimitParam(query));
            && |r.page.items| == Seqs.Min(LimitParam(query), |listed| - Seqs.Min(offset, |listed|))
            && forall k :: 0 <= k < |r.page.items| ==> r.page.items[k] == Seqs.SortDesc(listed, CreatedAt)[offset + k]
    ensures forall n :: n in r.page.items ==> n in notifications && Listed(n, userId, UnreadOnlyParam(query))
    ensures forall i, j :: 0 <= i < j < |r.page.items| ==> r.page.items[i].createdAt >= r.page.items[j].createdAt
    ensures r.page.pagination == Pagination(|ListedRows(notifications, userId, UnreadOnlyParam(query))|,
                                            PageParam(query), LimitParam(query))
    ensures r.page.pagination.totalItems
         == Seqs.Count(notifications, (n: Notification) => Listed(n, userId, UnreadOnlyParam(query)))
    ensures r.unreadCount == UnreadCount(notifications, userId)
  {
    var listed := ListedRows(notifications, userId, UnreadOnlyParam(query));
    NotificationPage(PageOf(listed, PageParam(query), LimitParam(query)), UnreadCount(notifications, userId))
  }

  /** With unread_only the total and the unread count are the same number; without it the total is never smaller. */
  lemma TotalAgainstUnread(notifications: seq<Notification>, userId: int, query: Value)
    ensures UnreadOnlyParam(query) ==>
              List(notifications, userId, query).page.pagination.totalItems == List(notifications, userId, query).unreadCount
    ensures List(notifications, userId, query).page.pagination.totalItems >= List(notifications, userId, query).unreadCount
  {
    if !UnreadOnlyParam(query) {
      CountMonotone(notifications, userId);
    }
  }

  lemma {:induction false} CountMonotone(notifications: seq<Notification>, userId: int)
    ensures Seqs.Count(notifications, (n: Notification) => Listed(n, userId, false)) >= UnreadCount(notifications, userId)
  {
    if notifications != [] {
      CountMonotone(notifications[1..], userId);
    }
  }

  /** When every listed row fits on the first page, the page holds all of them. */
  lemma FirstPageComplete(notifications: seq<Notification>, userId: int, query: Value, n: Notification)
    requires PageParam(query) == 1
    requires n in notifications && Listed(n, userId, UnreadOnlyParam(query))
    requires Seqs.Count(notifications, (n: Notification) => Listed(n, userId, UnreadOnlyParam(query))) <= LimitParam(query)
    ensures n in List(notifications, userId, query).page.items
  {
    var listed := ListedRows(notifications, userId, UnreadOnlyParam(query));
    Seqs.PageDescAll(listed, CreatedAt, LimitParam(query));
    assert Offset(1, LimitParam(query)) == 0;
    assert n in multiset(listed);
  }
}
