/**
 * POST api/send_follow_request.php: the caller asks to follow another user.
 * A public account is followed at once; a private one gets a pending request
 * and a notification. A rejected request on file is reopened rather than
 * duplicated.
 */
module SendFollowRequest {
  import opened Wrappers
  import opened Php
  import opened Http
  import opened Schema
  import Db
  import Seqs
  import Notify

  /** `(int)$input['user_id']`, required, and not the caller. */
  function TargetUser(input: Value, caller: int, selfError: string): (r: Checked<int>)
    ensures (Empty(input) || !Isset(input, "user_id")) ==> r == Reject(400, "User ID required")
    ensures (!Empty(input) && Isset(input, "user_id")) ==>
              r == if ToInt(Get(input, "user_id")) == caller then Reject(400, selfError)
                   else Pass(ToInt(Get(input, "user_id")))
    ensures r.Pass? ==> r.value != caller
  {
    if Empty(input) || !Isset(input, "user_id") then Reject(400, "User ID required")
    else
      var target := ToInt(Get(input, "user_id"));
      if target == caller then Reject(400, selfError) else Pass(target)
  }

  predicate SamePair(r: FollowRequest, senderId: int, receiverId: int) {
    r.senderId == senderId && r.receiverId == receiverId
  }

  /** The row `SELECT id, status FROM follow_requests WHERE sender_id = ? AND receiver_id = ?` fetches first. */
  function FirstRequest(requests: seq<FollowRequest>, senderId: int, receiverId: int): Option<nat> {
    Seqs.Find(requests, (r: FollowRequest) => SamePair(r, senderId, receiverId))
  }

  /** Every check before a write, in order; on success the target and whether the account is private. */
  function Check(users: seq<User>, followers: seq<Follow>, requests: seq<FollowRequest>, caller: int, input: Value)
    : (r: Checked<(int, bool)>)
    ensures TargetUser(input, caller, "Cannot follow yourself").Reject? ==>
              r == Reject(400, TargetUser(input, caller, "Cannot follow yourself").error)
    ensures r.Reject? && r.code == 404 <==>
              && TargetUser(input, caller, "Cannot follow yourself").Pass?
              && !UserExists(users, TargetUser(input, caller, "Cannot follow yourself").value)
    ensures r.Pass? <==>
              && TargetUser(input, caller, "Cannot follow yourself").Pass?
              && var target := TargetUser(input, caller, "Cannot follow yourself").value;
              && UserExists(users, target)
              && !IsFollowing(followers, target, caller)
              && (FirstRequest(requests, caller, target).None?
                  || requests[FirstRequest(requests, caller, target).value].status != Pending)
    ensures r.Pass? ==> && r.value.0 == TargetUser(input, caller, "Cannot follow yourself").value
                        && FindUser(users, r.value.0).Some?
                        && r.value.1 == FindUser(users, r.value.0).value.isPrivate
  {
    match TargetUser(input, caller, "Cannot follow yourself")
    case Reject(code, error) => Reject(code, error)
    case Pass(target) =>
      match FindUser(users, target)
      case None => Reject(404, "User not found")
      case Some(user) =>
        if IsFollowing(followers, target, caller) then Reject(400, "Already following this user")
        else match FirstRequest(requests, caller, target)
          case Some(k) =>
            if requests[k].status == Pending then Reject(400, "Follow request already sent")
            else Pass((target, user.isPrivate))
          case None => Pass((target, user.isPrivate))
  }

  /** UPDATE follow_requests SET status = 'pending' WHERE id = ?. */
  function Reopen(requests: seq<FollowRequest>, id: int): seq<FollowRequest> {
    Seqs.UpdateWhere(requests, (r: FollowRequest) => r.id == id, (r: FollowRequest) => r.(status := Pending))
  }

  /** The request table once the request is on file: a new pending row, a reopened rejected one, or as it was. */
  function Staged(requests: seq<FollowRequest>, nextId: int, senderId: int, receiverId: int, now: int)
    : (r: seq<FollowRequest>)
    ensures |r| == |requests| + Inserted(requests, senderId, receiverId)
    ensures Inserted(requests, senderId, receiverId) == 1 ==>
              r[|requests|] == FollowRequest(nextId, senderId, receiverId, Pending, now)
    ensures forall k :: 0 <= k < |requests| ==>
              && r[k] == requests[k].(status := r[k].status)
              && (r[k].status != requests[k].status ==> r[k].status == Pending)
  {
    match FirstRequest(requests, senderId, receiverId)
    case None => requests + [FollowRequest(nextId, senderId, receiverId, Pending, now)]
    case Some(k) => if requests[k].status == Rejected then Reopen(requests, requests[k].id) else requests
  }

  /** How many rows staging inserts: one when the pair has no request yet, none when one is reopened. */
  function Inserted(requests: seq<FollowRequest>, senderId: int, receiverId: int): nat {
    if FirstRequest(requests, senderId, receiverId).None? then 1 else 0
  }

  /** UPDATE follow_requests SET status = 'accepted' WHERE sender_id = ? AND receiver_id = ?: every row of the pair. */
  function AcceptPair(requests: seq<FollowRequest>, senderId: int, receiverId: int): (r: seq<FollowRequest>)
    ensures |r| == |requests|
    ensures forall k :: 0 <= k < |r| ==>
              r[k] == if SamePair(requests[k], senderId, receiverId) then requests[k].(status := Accepted) else requests[k]
  {
    Seqs.UpdateWhere(requests, (r: FollowRequest) => SamePair(r, senderId, receiverId),
                     (r: FollowRequest) => r.(status := Accepted))
  }

  /** A request on file is never duplicated, and afterwards the first row of the pair is pending. */
  lemma StagedPending(requests: seq<FollowRequest>, nextId: int, senderId: int, receiverId: int, now: int)
    requires FirstRequest(requests, senderId, receiverId).Some? ==>
               requests[FirstRequest(requests, senderId, receiverId).value].status == Rejected
    ensures var staged := Staged(requests, nextId, senderId, receiverId, now);
      && |staged| == |requests| + (if FirstRequest(requests, senderId, receiverId).None? then 1 else 0)
      && FirstRequest(staged, senderId, receiverId).Some?
      && staged[FirstRequest(staged, senderId, receiverId).value].status == Pending
      && HasPendingRequest(staged, senderId, receiverId)
  {
    var staged := Staged(requests, nextId, senderId, receiverId, now);
    var p := (r: FollowRequest) => SamePair(r, senderId, receiverId);
    match FirstRequest(requests, senderId, receiverId)
    case None =>
      var j := |requests|;
      assert p(staged[j]);
      assert forall i :: 0 <= i < j ==> staged[i] == requests[i];
    case Some(k) =>
      assert staged[k] == requests[k].(status := Pending);
      forall i | 0 <= i < k
        ensures !p(staged[i])
      {
        assert !p(requests[i]);
      }
  }

  /** Reopening or inserting a pending row accepts nothing, so the graph invariant holds on. */
  lemma StagedKeepsGraph(requests: seq<FollowRequest>, followers: seq<Follow>, nextId: int, senderId: int,
                         receiverId: int, now: int)
    requires Db.AcceptedFollowed(requests, followers)
    ensures Db.AcceptedFollowed(Staged(requests, nextId, senderId, receiverId, now), followers)
  {
    var staged := Staged(requests, nextId, senderId, receiverId, now);
    forall k | 0 <= k < |staged| && staged[k].status == Accepted
      ensures IsFollowing(followers, staged[k].receiverId, staged[k].senderId)
    {
      assert staged[k] in requests;
      var j :| 0 <= j < |requests| && requests[j] == staged[k];
    }
  }

  /** Accepting the pair together with its follower row keeps the graph invariant. */
  lemma AcceptKeepsGraph(requests: seq<FollowRequest>, followers: seq<Follow>, senderId: int, receiverId: int,
                         now: int)
    requires Db.AcceptedFollowed(requests, followers)
    ensures Db.AcceptedFollowed(AcceptPair(requests, senderId, receiverId),
                                followers + [Follow(receiverId, senderId, now)])
  {
    var rs := AcceptPair(requests, senderId, receiverId);
    var fs := followers + [Follow(receiverId, senderId, now)];
    forall k | 0 <= k < |rs| && rs[k].status == Accepted
      ensures IsFollowing(fs, rs[k].receiverId, rs[k].senderId)
    {
      if SamePair(requests[k], senderId, receiverId) {
        assert fs[|followers|] == Follow(receiverId, senderId, now);
      } else {
        var j :| 0 <= j < |followers| && followers[j].userId == rs[k].receiverId && followers[j].followerId == rs[k].senderId;
        assert fs[j] == followers[j];
      }
    }
  }

  /** With the invariant, a user one does not follow has no accepted request from one. */
  lemma NoAcceptedUnlessFollowing(requests: seq<FollowRequest>, followers: seq<Follow>, senderId: int,
                                  receiverId: int)
    requires Db.AcceptedFollowed(requests, followers) && !IsFollowing(followers, receiverId, senderId)
    ensures forall k :: 0 <= k < |requests| && SamePair(requests[k], senderId, receiverId) ==>
              requests[k].status != Accepted
  {
  }

  /**
   * Sending again is refused: after a private account was asked, with "Follow
   * request already sent"; after a public one, with "Already following this user".
   */
  lemma SendTwiceRefused(users: seq<User>, followers: seq<Follow>, requests: seq<FollowRequest>, nextId: int,
                         caller: int, input: Value, now: int)
    requires Db.AcceptedFollowed(requests, followers)
    requires Check(users, followers, requests, caller, input).Pass?
    ensures var (target, isPrivate) := Check(users, followers, requests, caller, input).value;
            var staged := Staged(requests, nextId, caller, target, now);
            if isPrivate then
              Check(users, followers, staged, caller, input) == Reject(400, "Follow request already sent")
            else
              Check(users, followers + [Follow(target, caller, now)], AcceptPair(staged, caller, target), caller, input)
              == Reject(400, "Already following this user")
  {
    var (target, isPrivate) := Check(users, followers, requests, caller, input).value;
    NoAcceptedUnlessFollowing(requests, followers, caller, target);
    StagedPending(requests, nextId, caller, target, now);
    if !isPrivate {
      assert (followers + [Follow(target, caller, now)])[|followers|] == Follow(target, caller, now);
    }
  }

  /** The answer: the request's status, and whether the caller now follows. */
  datatype FollowState = FollowState(status: string, isFollowing: bool)

  /** The notification text: the sender's username, or "" when the row is missing. */
  function RequestBody(users: seq<User>, caller: int): string {
    UsernameOf(users, caller) + " wants to follow you"
  }

  function RequestData(caller: int): Value {
    VMap(map["user_id" := VInt(caller)])
  }

  /** Put the request on file: insert it, or reopen the rejected row fetched first. */
  method Stage(db: Db.Database, caller: int, target: int, now: int)
    requires db.Valid() && !IsFollowing(db.followers, target, caller)
    requires FirstRequest(db.requests, caller, target).Some? ==>
               db.requests[FirstRequest(db.requests, caller, target).value].status != Pending
    modifies db`requests, db`nextRequestId
    ensures db.Valid()
    ensures db.requests == Staged(old(db.requests), old(db.nextRequestId), caller, target, now)
    ensures db.nextRequestId == old(db.nextRequestId) + Inserted(old(db.requests), caller, target)
  {
    NoAcceptedUnlessFollowing(db.requests, db.followers, caller, target);
    var first := FirstRequest(db.requests, caller, target);
    if first.None? {
      db.AddRequest(FollowRequest(db.nextRequestId, caller, target, Pending, now));
    } else if db.requests[first.value].status == Rejected {
      var id := db.requests[first.value].id;
      Db.UpdateIdsBelow(db.requests, (r: FollowRequest) => r.id == id,
                        (r: FollowRequest) => r.(status := Pending), Db.RequestId, db.nextRequestId);
      StagedKeepsGraph(db.requests, db.followers, db.nextRequestId, caller, target, now);
      db.SetRequests(Reopen(db.requests, id));
    } else {
      assert false;
    }
  }

  /** A public account: accept every request of the pair and add the follower row. */
  method AutoAccept(db: Db.Database, caller: int, target: int, now: int)
    requires db.Valid() && !IsFollowing(db.followers, target, caller)
    modifies db`requests, db`followers
    ensures db.Valid()
    ensures db.requests == AcceptPair(old(db.requests), caller, target)
    ensures db.followers == old(db.followers) + [Follow(target, caller, now)]
  {
    Seqs.UniqueAppend(db.followers, Follow(target, caller, now), Db.FollowKey);
    AcceptKeepsGraph(db.requests, db.followers, caller, target, now);
    Db.UpdateIdsBelow(db.requests, (r: FollowRequest) => SamePair(r, caller, target),
                      (r: FollowRequest) => r.(status := Accepted), Db.RequestId, db.nextRequestId);
    db.SetGraph(db.followers + [Follow(target, caller, now)], AcceptPair(db.requests, caller, target));
  }

  /** A private account: put the request on file and notify the account. */
  method Ask(db: Db.Database, caller: int, target: int, now: int) returns (resp: Response<FollowState>)
    requires db.Valid() && !IsFollowing(db.followers, target, caller)
    requires FirstRequest(db.requests, caller, target).Some? ==>
               db.requests[FirstRequest(db.requests, caller, target).value].status != Pending
    modifies db`requests, db`nextRequestId, db`notifications, db`nextNotificationId, db`outbox
    ensures db.Valid()
    ensures db.requests == Staged(old(db.requests), old(db.nextRequestId), caller, target, now)
    ensures db.nextRequestId == old(db.nextRequestId) + Inserted(old(db.requests), caller, target)
    ensures db.Sent() == Notify.AfterSend(old(db.Sent()), db.tokens, target, "follow_request", "New Follow Request",
                                          RequestBody(db.users, caller), RequestData(caller), now)
    ensures resp == Success(FollowState("pending", false), "Follow request sent")
  {
    Stage(db, caller, target, now);
    Notify.Send(db, target, "follow_request", "New Follow Request", RequestBody(db.users, caller),
                RequestData(caller), now);
    resp := Success(FollowState("pending", false), "Follow request sent");
  }

  /** A public account: put the request on file, then accept it and add the follower row. */
  method FollowAtOnce(db: Db.Database, caller: int, target: int, now: int) returns (resp: Response<FollowState>)
    requires db.Valid() && !IsFollowing(db.followers, target, caller)
    requires FirstRequest(db.requests, caller, target).Some? ==>
               db.requests[FirstRequest(db.requests, caller, target).value].status != Pending
    modifies db`requests, db`nextRequestId, db`followers
    ensures db.Valid()
    ensures db.requests == AcceptPair(Staged(old(db.requests), old(db.nextRequestId), caller, target, now),
                                      caller, target)
    ensures db.nextRequestId == old(db.nextRequestId) + Inserted(old(db.requests), caller, target)
    ensures db.followers == old(db.followers) + [Follow(target, caller, now)]
    ensures resp == Success(FollowState("accepted", true), "Now following user")
  {
    Stage(db, caller, target, now);
    AutoAccept(db, caller, target, now);
    resp := Success(FollowState("accepted", true), "Now following user");
  }

  /** The endpoint. */
  method Send(db: Db.Database, caller: int, input: Value, now: int) returns (resp: Response<FollowState>)
    requires db.Valid()
    modifies db`requests, db`nextRequestId, db`followers, db`notifications, db`nextNotificationId, db`outbox
    ensures db.Valid()
    ensures Check(db.users, old(db.followers), old(db.requests), caller, input).Reject? ==>
              && resp == Failure(Check(db.users, old(db.followers), old(db.requests), caller, input).code,
                                 Check(db.users, old(db.followers), old(db.requests), caller, input).error)
              && db.requests == old(db.requests) && db.nextRequestId == old(db.nextRequestId)
              && db.followers == old(db.followers) && db.Sent() == old(db.Sent())
    ensures Check(db.users, old(db.followers), old(db.requests), caller, input).Pass? ==>
              db.nextRequestId == old(db.nextRequestId)
                + Inserted(old(db.requests), caller, Check(db.users, old(db.followers), old(db.requests), caller, input).value.0)
    ensures Check(db.users, old(db.followers), old(db.requests), caller, input).Pass? ==>
              var (target, isPrivate) := Check(db.users, old(db.followers), old(db.requests), caller, input).value;
              var staged := Staged(old(db.requests), old(db.nextRequestId), caller, target, now);
              if isPrivate then
                && db.requests == staged && db.followers == old(db.followers)
                && db.Sent() == Notify.AfterSend(old(db.Sent()), db.tokens, target, "follow_request",
                                                 "New Follow Request", RequestBody(db.users, caller),
                                                 RequestData(caller), now)
                && resp == Success(FollowState("pending", false), "Follow request sent")
              else
                && db.requests == AcceptPair(staged, caller, target)
                && db.followers == old(db.followers) + [Follow(target, caller, now)]
                && db.Sent() == old(db.Sent())
                && resp == Success(FollowState("accepted", true), "Now following user")
  {
    var checked := Check(db.users, db.followers, db.requests, caller, input);
    if checked.Reject? {
      return Failure(checked.code, checked.error);
    }
    var (target, isPrivate) := checked.value;
    assert !IsFollowing(db.followers, target, caller);
    ghost var staged := Staged(db.requests, db.nextRequestId, caller, target, now);
    if isPrivate {
      resp := Ask(db, caller, target, now);
      assert db.requests == staged;
    } else {
      resp := FollowAtOnce(db, caller, target, now);
      assert db.requests == AcceptPair(staged, caller, target);
    }
  }
}
