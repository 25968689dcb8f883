/**
 * GET api/get_followers.php: the followers of a user, newest follow first, a
 * page at a time, each with the viewer's relationship to that follower. A
 * private account's list is shown only to the account and its followers.
 */
module GetFollowers {
  import opened Wrappers
  import opened Php
  import opened Http
  import opened Schema
  import Seqs
  import SendFollowRequest

  /**
   * `$_GET['user_id'] ?? (the caller's id)`; a missing or falsy result is
   * refused, otherwise it is cast to int.
   */
  function TargetParam(query: Value, viewer: Option<int>): (r: Checked<int>)
    ensures Isset(query, "user_id") ==>
              r == if ToBool(Get(query, "user_id")) then Pass(ToInt(Get(query, "user_id")))
                   else Reject(400, "User ID required")
    ensures !Isset(query, "user_id") && viewer.None? ==> r == Reject(400, "User ID required")
    ensures !Isset(query, "user_id") && viewer.Some? && viewer.value != 0 ==> r == Pass(viewer.value)
  {
    var raw := if Isset(query, "user_id") then Get(query, "user_id")
               else if viewer.Some? then VInt(viewer.value) else VNull;
    if !ToBool(raw) then Reject(400, "User ID required") else Pass(ToInt(raw))
  }

  /** The viewer's relationship to another user, as both endpoints report it. */
  datatype Relation = Relation(isFollowing: bool, requestStatus: Option<RequestStatus>)

  /**
   * Computed only for a logged-in viewer looking at someone else: whether the
   * viewer follows `other`, and the status of the first request from the
   * viewer to `other`.
   */
  function RelationTo(followers: seq<Follow>, requests: seq<FollowRequest>, viewer: Option<int>, other: int)
    : (r: Relation)
    ensures viewer.None? || viewer.value == other ==> r == Relation(false, None)
    ensures viewer.Some? && viewer.value != other ==>
              && (r.isFollowing <==> IsFollowing(followers, other, viewer.value))
              && (r.requestStatus.Some? <==> exists k :: 0 <= k < |requests| && requests[k].senderId == viewer.value
                                                         && requests[k].receiverId == other)
              && (r.requestStatus.Some? ==>
                    exists k :: 0 <= k < |requests| && requests[k].senderId == viewer.value
                                && requests[k].receiverId == other && requests[k].status == r.requestStatus.value)
  {
    if viewer.None? || viewer.value == other then Relation(false, None)
    else
      var status := match SendFollowRequest.FirstRequest(requests, viewer.value, other)
        case None => None
        case Some(k) => Some(requests[k].status);
      Relation(IsFollowing(followers, other, viewer.value), status)
  }

  /** The `$canView` rule. */
  predicate CanView(target: User, viewer: Option<int>, followers: seq<Follow>)
    ensures !target.isPrivate ==> CanView(target, viewer, followers)
    ensures viewer == Some(target.id) ==> CanView(target, viewer, followers)
    ensures viewer.None? ==> (CanView(target, viewer, followers) <==> !target.isPrivate)
    ensures target.isPrivate && viewer.Some? && viewer.value != target.id ==>
              (CanView(target, viewer, followers) <==> IsFollowing(followers, target.id, viewer.value))
  {
    if target.isPrivate && viewer.Some? && viewer.value != target.id then IsFollowing(followers, target.id, viewer.value)
    else !(target.isPrivate && viewer.None?)
  }

  /** The list is visible iff the account is public, or the viewer is the account itself or one of its followers. */
  lemma CanViewIff(target: User, viewer: Option<int>, followers: seq<Follow>)
    ensures CanView(target, viewer, followers) <==>
              || !target.isPrivate
              || (viewer.Some? && (viewer.value == target.id || IsFollowing(followers, target.id, viewer.value)))
  {
  }

  /** One entry: the follower, when followed, the viewer's relationship to them, and whether it is the viewer. */
  datatype FollowerItem = FollowerItem(
    user: Option<User>,
    followedAt: int,
    relation: Relation,
    isOwnProfile: bool)

  /** The row survives `JOIN users u ON f.follower_id = u.id`. */
  predicate Joined(f: Follow, target: int, users: seq<User>) {
    f.userId == target && UserExists(users, f.followerId)
  }

  function FollowedAt(f: Follow): int {
    f.createdAt
  }

  function Item(f: Follow, users: seq<User>, followers: seq<Follow>, requests: seq<FollowRequest>, viewer: Option<int>)
    : FollowerItem
  {
    FollowerItem(FindUser(users, f.followerId), f.createdAt, RelationTo(followers, requests, viewer, f.followerId),
                 viewer == Some(f.followerId))
  }

  function FollowerOf(target: int): Follow -> bool {
    (f: Follow) => f.userId == target
  }

  /** The follower rows of `target` that survive the join, in table order. */
  function JoinedRows(followers: seq<Follow>, target: int, users: seq<User>): (r: seq<Follow>)
    ensures forall f :: f in r <==> f in followers && Joined(f, target, users)
  {
    Seqs.Filter(followers, (f: Follow) => Joined(f, target, users))
  }

  /** One page of the followers of `target` that survive the join, newest first. */
  function Page(users: seq<User>, followers: seq<Follow>, requests: seq<FollowRequest>, viewer: Option<int>,
                target: int, page: int, limit: int): (items: seq<FollowerItem>)
    requires page >= 1 && limit >= 1
    ensures var joined := JoinedRows(followers, target, users);
            var offset := Offset(page, limit);
            && |items| == Seqs.Min(limit, |joined| - Seqs.Min(offset, |joined|))
            && forall k :: 0 <= k < |items| ==>
                 items[k] == Item(Seqs.SortDesc(joined, FollowedAt)[offset + k], users, followers, requests, viewer)
    ensures forall x :: x in items ==>
              && x.user.Some? && x.user.value in users && IsFollowing(followers, target, x.user.value.id)
              && x.relation == RelationTo(followers, requests, viewer, x.user.value.id)
              && (x.isOwnProfile <==> viewer == Some(x.user.value.id))
    ensures forall i, j :: 0 <= i < j < |items| ==> items[i].followedAt >= items[j].followedAt
  {
    var joined := JoinedRows(followers, target, users);
    var rows := Seqs.PageDesc(joined, FollowedAt, Offset(page, limit), limit);
    var items := Seqs.Map(rows, (f: Follow) => Item(f, users, followers, requests, viewer));
    forall x | x in items
      ensures && x.user.Some? && x.user.value in users && IsFollowing(followers, target, x.user.value.id)
              && x.relation == RelationTo(followers, requests, viewer, x.user.value.id)
              && (x.isOwnProfile <==> viewer == Some(x.user.value.id))
    {
      var i :| 0 <= i < |items| && items[i] == x;
      assert rows[i] in rows;
      var k :| 0 <= k < |followers| && followers[k] == rows[i];
    }
    items
  }

  /** The answer: the checks in order, then one page of followers and the unjoined total. */
  function List(users: seq<User>, followers: seq<Follow>, requests: seq<FollowRequest>, viewer: Option<int>,
                query: Value): (r: Checked<Paged<FollowerItem>>)
    ensures TargetParam(query, viewer).Reject? ==> r == Reject(400, "User ID required")
    ensures TargetParam(query, viewer).Pass? ==>
              var target := TargetParam(query, viewer).value;
              && (FindUser(users, target).None? ==> r == Reject(404, "User not found"))
              && (FindUser(users, target).Some? && !CanView(FindUser(users, target).value, viewer, followers) ==>
                    r == Reject(403, "Cannot view followers list for private account"))
              && (FindUser(users, target).Some? && CanView(FindUser(users, target).value, viewer, followers) ==>
                    r.Pass?)
    ensures r.Pass? ==>
              var target := TargetParam(query, viewer).value;
              var items := r.value.items;
              var joined := JoinedRows(followers, target, users);
              var offset := Offset(PageParam(query), LimitParam(query));
              && |items| == Seqs.Min(LimitParam(query), |joined| - Seqs.Min(offset, |joined|))
              && (forall k :: 0 <= k < |items| ==>
                    items[k] == Item(Seqs.SortDesc(joined, FollowedAt)[offset + k], users, followers, requests, viewer))
              && (forall x :: x in items ==>
                    && x.user.Some? && x.user.value in users && IsFollowing(followers, target, x.user.value.id)
                    && x.relation == RelationTo(followers, requests, viewer, x.user.value.id)
                    && (x.isOwnProfile <==> viewer == Some(x.user.value.id)))
              && (forall i, j :: 0 <= i < j < |items| ==> items[i].followedAt >= items[j].followedAt)
              && r.value.pagination
                 == Pagination(Seqs.Count(followers, FollowerOf(target)), PageParam(query), LimitParam(query))
  {
    match TargetParam(query, viewer)
    case Reject(code, error) => Reject(code, error)
    case Pass(target) =>
      match FindUser(users, target)
      case None => Reject(404, "User not found")
      case Some(user) =>
        if !CanView(user, viewer, followers) then Reject(403, "Cannot view followers list for private account")
        else
          var page := PageParam(query);
          var limit := LimitParam(query);
          var items := Page(users, followers, requests, viewer, target, page, limit);
          Pass(Paginate(items, Seqs.Count(followers, FollowerOf(target)), page, limit))
  }
}
