/**
 * POST api/unfollow.php: the caller stops following a user. The follower row
 * goes, and the caller's accepted request to that user is marked rejected, so
 * following again takes a new request.
 */
module Unfollow {
  import opened Php
  import opened Http
  import opened Schema
  import Db
  import Seqs
  import SendFollowRequest

  /** The follower row of the pair: `followerId` follows `userId`. */
  predicate FollowOf(f: Follow, userId: int, followerId: int) {
    f.userId == userId && f.followerId == followerId
  }

  /** DELETE FROM followers WHERE user_id = ? AND follower_id = ?. */
  function Unfollowed(followers: seq<Follow>, userId: int, followerId: int): (r: seq<Follow>)
    ensures !IsFollowing(r, userId, followerId)
    ensures forall f :: f in r <==> f in followers && !FollowOf(f, userId, followerId)
  {
    var r := Seqs.Filter(followers, (f: Follow) => !FollowOf(f, userId, followerId));
    assert forall k :: 0 <= k < |r| ==> r[k] in r;
    r
  }

  /** The sender's accepted request: the rows the UPDATE marks rejected. */
  predicate AcceptedBy(r: FollowRequest, senderId: int, receiverId: int) {
    r.senderId == senderId && r.receiverId == receiverId && r.status == Accepted
  }

  /** UPDATE follow_requests SET status = 'rejected' WHERE sender_id = ? AND receiver_id = ? AND status = 'accepted'. */
  function Withdrawn(requests: seq<FollowRequest>, senderId: int, receiverId: int): (r: seq<FollowRequest>)
    ensures |r| == |requests|
    ensures forall k :: 0 <= k < |r| ==>
              r[k] == if AcceptedBy(requests[k], senderId, receiverId) then requests[k].(status := Rejected)
                      else requests[k]
    ensures forall k :: 0 <= k < |r| ==> !AcceptedBy(r[k], senderId, receiverId)
  {
    Seqs.UpdateWhere(requests, (r: FollowRequest) => AcceptedBy(r, senderId, receiverId),
                     (r: FollowRequest) => r.(status := Rejected))
  }

  /**
   * The two writes together keep the graph invariant: the only accepted
   * requests that needed the deleted row are the ones the UPDATE rejects.
   */
  lemma UnfollowKeepsGraph(requests: seq<FollowRequest>, followers: seq<Follow>, caller: int, target: int)
    requires Db.AcceptedFollowed(requests, followers)
    ensures Db.AcceptedFollowed(Withdrawn(requests, caller, target), Unfollowed(followers, target, caller))
  {
    var rs := Withdrawn(requests, caller, target);
    var fs := Unfollowed(followers, target, caller);
    forall k | 0 <= k < |rs| && rs[k].status == Accepted
      ensures IsFollowing(fs, rs[k].receiverId, rs[k].senderId)
    {
      assert rs[k] == requests[k];
      var i :| 0 <= i < |followers| && followers[i].userId == rs[k].receiverId
               && followers[i].followerId == rs[k].senderId;
      assert followers[i] in fs;
      var j :| 0 <= j < |fs| && fs[j] == followers[i];
    }
  }

  /** Following a user and then unfollowing them gives the follower table back. */
  lemma {:induction false} UnfollowUndoesFollow(followers: seq<Follow>, target: int, caller: int, now: int)
    requires !IsFollowing(followers, target, caller)
    ensures Unfollowed(followers + [Follow(target, caller, now)], target, caller) == followers
  {
    var p := (f: Follow) => !FollowOf(f, target, caller);
    Seqs.FilterAppend(followers, [Follow(target, caller, now)], p);
    forall f | f in followers
      ensures p(f)
    {
      var k :| 0 <= k < |followers| && followers[k] == f;
    }
    Seqs.FilterAll(followers, p);
    assert Seqs.Filter([Follow(target, caller, now)], p) == [];
  }

  /**
   * Once unfollowed, the caller is no longer turned away from following the
   * user again: a new request gets past "Already following this user".
   */
  lemma FollowAgain(users: seq<User>, followers: seq<Follow>, requests: seq<FollowRequest>, caller: int, input: Value)
    requires SendFollowRequest.TargetUser(input, caller, "Cannot follow yourself").Pass?
    requires UserExists(users, SendFollowRequest.TargetUser(input, caller, "Cannot follow yourself").value)
    ensures var target := SendFollowRequest.TargetUser(input, caller, "Cannot follow yourself").value;
            SendFollowRequest.Check(users, Unfollowed(followers, target, caller),
                                    Withdrawn(requests, caller, target), caller, input)
            != Reject(400, "Already following this user")
  {
  }

  /** The checks before the writes; on success the user to unfollow. */
  function Check(followers: seq<Follow>, caller: int, input: Value): (r: Checked<int>)
    ensures SendFollowRequest.TargetUser(input, caller, "Cannot unfollow yourself").Reject? ==>
              r == SendFollowRequest.TargetUser(input, caller, "Cannot unfollow yourself")
    ensures r.Pass? <==>
              && SendFollowRequest.TargetUser(input, caller, "Cannot unfollow yourself").Pass?
              && IsFollowing(followers, SendFollowRequest.TargetUser(input, caller, "Cannot unfollow yourself").value,
                             caller)
    ensures r.Pass? ==> r.value == SendFollowRequest.TargetUser(input, caller, "Cannot unfollow yourself").value
    ensures r.Reject? ==> r.code == 400
  {
    match SendFollowRequest.TargetUser(input, caller, "Cannot unfollow yourself")
    case Reject(code, error) => Reject(code, error)
    case Pass(target) =>
      if !IsFollowing(followers, target, caller) then Reject(400, "Not currently following this user")
      else Pass(target)
  }

  function NotFollowing(): Value {
    VMap(map["is_following" := VBool(false)])
  }

  /** The endpoint. */
  method Unfollow(db: Db.Database, caller: int, input: Value) returns (resp: Response<Value>)
    requires db.Valid()
    modifies db`followers, db`requests
    ensures db.Valid()
    ensures Check(old(db.followers), caller, input).Reject? ==>
              && resp == Failure(400, Check(old(db.followers), caller, input).error)
              && db.followers == old(db.followers) && db.requests == old(db.requests)
    ensures Check(old(db.followers), caller, input).Pass? ==>
              var target := Check(old(db.followers), caller, input).value;
              && db.followers == Unfollowed(old(db.followers), target, caller)
              && db.requests == Withdrawn(old(db.requests), caller, target)
              && resp == Success(NotFollowing(), "Successfully unfollowed user")
  {
    var checked := Check(db.followers, caller, input);
    if checked.Reject? {
      return Failure(400, checked.error);
    }
    var target := checked.value;
    Seqs.UniqueFilter(db.followers, (f: Follow) => !FollowOf(f, target, caller), Db.FollowKey);
    Db.UpdateIdsBelow(db.requests, (r: FollowRequest) => AcceptedBy(r, caller, target),
                      (r: FollowRequest) => r.(status := Rejected), Db.RequestId, db.nextRequestId);
    UnfollowKeepsGraph(db.requests, db.followers, caller, target);
    db.SetGraph(Unfollowed(db.followers, target, caller), Withdrawn(db.requests, caller, target));
    resp := Success(NotFollowing(), "Successfully unfollowed user");
  }
}
