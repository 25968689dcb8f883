/**
 * POST api/respond_follow_request.php: the receiver of a pending follow
 * request accepts it (the sender becomes a follower and is notified) or
 * rejects it.
 */
module RespondFollowRequest {
  import opened Wrappers
  import opened Php
  import opened Http
  import opened Schema
  import Validator
  import Db
  import Seqs
  import Notify

  const ACTIONS: seq<string> := ["accept", "reject"]

  datatype Answer = Answer(requestId: int, accept: bool)

  /** The body: request_id and action both present, the action one of accept and reject. */
  function Parse(input: Value): (r: Checked<Answer>)
    ensures Empty(input) ==> r == Reject(400, "Invalid JSON input")
    ensures r.Reject? ==> r.code == 400
    ensures !Empty(input) && !Empty(Get(input, "request_id")) && !Empty(Get(input, "action"))
            && !InList(Get(input, "action"), ACTIONS) ==>
              r == Reject(400, "Invalid action. Use \"accept\" or \"reject\"")
    ensures r.Pass? <==>
              !Empty(input) && !Empty(Get(input, "request_id")) && InList(Get(input, "action"), ACTIONS)
    ensures r.Pass? ==> r.value == Answer(ToInt(Get(input, "request_id")), Get(input, "action") == VStr("accept"))
  {
    if Empty(input) then Reject(400, "Invalid JSON input")
    else
      var missing := Validator.MissingFields(["request_id", "action"], input);
      Validator.NoneMissingOfTwo("request_id", "action", input);
      if missing != [] then Reject(400, Validator.MissingMessage(missing))
      else if !InList(Get(input, "action"), ACTIONS) then Reject(400, "Invalid action. Use \"accept\" or \"reject\"")
      else Pass(Answer(ToInt(Get(input, "request_id")), Get(input, "action") == VStr("accept")))
  }

  /** The refusal texts for a missing request_id, a missing action, or both. */
  lemma MissingRefused(input: Value)
    requires !Empty(input)
    ensures Empty(Get(input, "request_id")) && !Empty(Get(input, "action")) ==>
              Parse(input) == Reject(400, "Missing required fields: " + "request_id")
    ensures !Empty(Get(input, "request_id")) && Empty(Get(input, "action")) ==>
              Parse(input) == Reject(400, "Missing required fields: " + "action")
    ensures Empty(Get(input, "request_id")) && Empty(Get(input, "action")) ==>
              Parse(input) == Reject(400, "Missing required fields: " + "request_id" + ", " + "action")
  {
    Validator.NoneMissingOfTwo("request_id", "action", input);
    Validator.MissingTextOfTwo("request_id", "action", input);
  }

  /** The WHERE clause of the lookup: this id, addressed to the caller, pending, with a sender row to join. */
  predicate Open(r: FollowRequest, id: int, caller: int, users: seq<User>) {
    r.id == id && r.receiverId == caller && r.status == Pending && UserExists(users, r.senderId)
  }

  /** The row the lookup fetches, if any. */
  function FindOpen(requests: seq<FollowRequest>, id: int, caller: int, users: seq<User>): Option<nat> {
    Seqs.Find(requests, (r: FollowRequest) => Open(r, id, caller, users))
  }

  function SetStatus(requests: seq<FollowRequest>, id: int, status: RequestStatus): (r: seq<FollowRequest>)
    ensures |r| == |requests|
    ensures forall k :: 0 <= k < |r| ==>
              r[k] == if requests[k].id == id then requests[k].(status := status) else requests[k]
  {
    Seqs.UpdateWhere(requests, (r: FollowRequest) => r.id == id, (r: FollowRequest) => r.(status := status))
  }

  /** The follower row is inserted only when it is not there yet. */
  function AddFollower(followers: seq<Follow>, userId: int, followerId: int, now: int): seq<Follow> {
    if IsFollowing(followers, userId, followerId) then followers else followers + [Follow(userId, followerId, now)]
  }

  /**
   * Accepting keeps one follower row per pair and the graph invariant; the
   * sender then follows the caller.
   */
  lemma AcceptKeepsGraph(requests: seq<FollowRequest>, followers: seq<Follow>, k: nat, now: int)
    requires k < |requests| && Db.AcceptedFollowed(requests, followers) && Seqs.UniqueBy(followers, Db.FollowKey)
    requires Seqs.UniqueBy(requests, Db.RequestId)
    ensures var fs := AddFollower(followers, requests[k].receiverId, requests[k].senderId, now);
      && Db.AcceptedFollowed(SetStatus(requests, requests[k].id, Accepted), fs)
      && Seqs.UniqueBy(fs, Db.FollowKey)
      && IsFollowing(fs, requests[k].receiverId, requests[k].senderId)
  {
    var r := requests[k];
    var fs := AddFollower(followers, r.receiverId, r.senderId, now);
    var rs := SetStatus(requests, r.id, Accepted);
    if !IsFollowing(followers, r.receiverId, r.senderId) {
      Seqs.UniqueAppend(followers, Follow(r.receiverId, r.senderId, now), Db.FollowKey);
      assert fs[|followers|] == Follow(r.receiverId, r.senderId, now);
    }
    forall j | 0 <= j < |rs| && rs[j].status == Accepted
      ensures IsFollowing(fs, rs[j].receiverId, rs[j].senderId)
    {
      if requests[j].id == r.id {
        assert Db.RequestId(requests[j]) == Db.RequestId(requests[k]);
        assert requests[j] == r;
      } else {
        var i :| 0 <= i < |followers| && followers[i].userId == rs[j].receiverId
                 && followers[i].followerId == rs[j].senderId;
        assert fs[i] == followers[i];
      }
    }
  }

  /** Rejecting accepts nothing, so the graph invariant holds on. */
  lemma RejectKeepsGraph(requests: seq<FollowRequest>, followers: seq<Follow>, id: int)
    requires Db.AcceptedFollowed(requests, followers)
    ensures Db.AcceptedFollowed(SetStatus(requests, id, Rejected), followers)
  {
  }

  /** A request is answered once: afterwards it is no longer open, so a second answer is not found. */
  lemma AnsweredOnce(requests: seq<FollowRequest>, users: seq<User>, id: int, caller: int, status: RequestStatus)
    requires status != Pending
    ensures FindOpen(SetStatus(requests, id, status), id, caller, users).None?
  {
  }

  /** The answer: the request and its sender. */
  datatype Responded = Responded(requestId: int, action: string, senderId: int, senderUsername: string)

  function AcceptedBody(users: seq<User>, caller: int): string {
    UsernameOf(users, caller) + " accepted your follow request"
  }

  function AcceptedData(caller: int): Value {
    VMap(map["user_id" := VInt(caller)])
  }

  /** The endpoint. */
  method Respond(db: Db.Database, caller: int, input: Value, now: int) returns (resp: Response<Responded>)
    requires db.Valid()
    modifies db`requests, db`followers, db`notifications, db`nextNotificationId, db`outbox
    ensures db.Valid()
    ensures Parse(input).Reject? ==>
              && resp == Failure(Parse(input).code, Parse(input).error)
              && db.requests == old(db.requests) && db.followers == old(db.followers) && db.Sent() == old(db.Sent())
    ensures Parse(input).Pass? ==>
              var a := Parse(input).value;
              match FindOpen(old(db.requests), a.requestId, caller, db.users)
              case None =>
                && resp == Failure(404, "Follow request not found or already processed")
                && db.requests == old(db.requests) && db.followers == old(db.followers) && db.Sent() == old(db.Sent())
              case Some(k) =>
                var senderId := old(db.requests)[k].senderId;
                var answered := Responded(a.requestId, if a.accept then "accept" else "reject", senderId,
                                          UsernameOf(db.users, senderId));
                if a.accept then
                  && db.requests == SetStatus(old(db.requests), a.requestId, Accepted)
                  && db.followers == AddFollower(old(db.followers), caller, senderId, now)
                  && db.Sent() == Notify.AfterSend(old(db.Sent()), db.tokens, senderId, "follow_accepted",
                       "Follow Request Accepted", AcceptedBody(db.users, caller), AcceptedData(caller), now)
                  && resp == Success(answered, "Follow request accepted")
                else
                  && db.requests == SetStatus(old(db.requests), a.requestId, Rejected)
                  && db.followers == old(db.followers) && db.Sent() == old(db.Sent())
                  && resp == Success(answered, "Follow request rejected")
  {
    var parsed := Parse(input);
    if parsed.Reject? {
      return Failure(parsed.code, parsed.error);
    }
    resp := Find(db, caller, parsed.value, now);
  }

  /** Look the request up and answer it, or answer 404 when it is not open for the caller. */
  method Find(db: Db.Database, caller: int, a: Answer, now: int) returns (resp: Response<Responded>)
    requires db.Valid()
    modifies db`requests, db`followers, db`notifications, db`nextNotificationId, db`outbox
    ensures db.Valid()
    ensures match FindOpen(old(db.requests), a.requestId, caller, db.users)
            case None =>
              && resp == Failure(404, "Follow request not found or already processed")
              && db.requests == old(db.requests) && db.followers == old(db.followers) && db.Sent() == old(db.Sent())
            case Some(k) =>
              var senderId := old(db.requests)[k].senderId;
              var answered := Responded(a.requestId, if a.accept then "accept" else "reject", senderId,
                                        UsernameOf(db.users, senderId));
              if a.accept then
                && db.requests == SetStatus(old(db.requests), a.requestId, Accepted)
                && db.followers == AddFollower(old(db.followers), caller, senderId, now)
                && db.Sent() == Notify.AfterSend(old(db.Sent()), db.tokens, senderId, "follow_accepted",
                     "Follow Request Accepted", AcceptedBody(db.users, caller), AcceptedData(caller), now)
                && resp == Success(answered, "Follow request accepted")
              else
                && db.requests == SetStatus(old(db.requests), a.requestId, Rejected)
                && db.followers == old(db.followers) && db.Sent() == old(db.Sent())
                && resp == Success(answered, "Follow request rejected")
  {
    var found := FindOpen(db.requests, a.requestId, caller, db.users);
    if found.None? {
      return Failure(404, "Follow request not found or already processed");
    }
    resp := Answered(db, caller, found.value, a, now);
  }

  /** Answering the request found at index `k`: the accept or the reject path, and its answer. */
  method Answered(db: Db.Database, caller: int, k: nat, a: Answer, now: int) returns (resp: Response<Responded>)
    requires db.Valid() && k < |db.requests| && Open(db.requests[k], a.requestId, caller, db.users)
    modifies db`requests, db`followers, db`notifications, db`nextNotificationId, db`outbox
    ensures db.Valid()
    ensures var senderId := old(db.requests)[k].senderId;
            var answered := Responded(a.requestId, if a.accept then "accept" else "reject", senderId,
                                      UsernameOf(db.users, senderId));
            if a.accept then
              && db.requests == SetStatus(old(db.requests), a.requestId, Accepted)
              && db.followers == AddFollower(old(db.followers), caller, senderId, now)
              && db.Sent() == Notify.AfterSend(old(db.Sent()), db.tokens, senderId, "follow_accepted",
                   "Follow Request Accepted", AcceptedBody(db.users, caller), AcceptedData(caller), now)
              && resp == Success(answered, "Follow request accepted")
            else
              && db.requests == SetStatus(old(db.requests), a.requestId, Rejected)
              && db.followers == old(db.followers) && db.Sent() == old(db.Sent())
              && resp == Success(answered, "Follow request rejected")
  {
    var senderId := db.requests[k].senderId;
    var answered := Responded(a.requestId, if a.accept then "accept" else "reject", senderId,
                              UsernameOf(db.users, senderId));
    if a.accept {
      AcceptRequest(db, k, now);
      Notify.Send(db, senderId, "follow_accepted", "Follow Request Accepted", AcceptedBody(db.users, caller),
                  AcceptedData(caller), now);
      resp := Success(answered, "Follow request accepted");
    } else {
      RejectRequest(db, a.requestId);
      resp := Success(answered, "Follow request rejected");
    }
  }

  /** The reject transaction: mark the request rejected. */
  method RejectRequest(db: Db.Database, id: int)
    requires db.Valid()
    modifies db`requests
    ensures db.Valid()
    ensures db.requests == SetStatus(old(db.requests), id, Rejected)
  {
    Db.UpdateIdsBelow(db.requests, (r: FollowRequest) => r.id == id,
                      (r: FollowRequest) => r.(status := Rejected), Db.RequestId, db.nextRequestId);
    RejectKeepsGraph(db.requests, db.followers, id);
    db.SetRequests(SetStatus(db.requests, id, Rejected));
  }

  /** The accept transaction: mark the request accepted and add the follower row if it is missing. */
  method AcceptRequest(db: Db.Database, k: nat, now: int)
    requires db.Valid() && k < |db.requests|
    modifies db`requests, db`followers
    ensures db.Valid()
    ensures var r := old(db.requests)[k];
      && db.requests == SetStatus(old(db.requests), r.id, Accepted)
      && db.followers == AddFollower(old(db.followers), r.receiverId, r.senderId, now)
      && IsFollowing(db.followers, r.receiverId, r.senderId)
  {
    var r := db.requests[k];
    AcceptKeepsGraph(db.requests, db.followers, k, now);
    Db.UpdateIdsBelow(db.requests, (x: FollowRequest) => x.id == r.id,
                      (x: FollowRequest) => x.(status := Accepted), Db.RequestId, db.nextRequestId);
    db.SetGraph(AddFollower(db.followers, r.receiverId, r.senderId, now), SetStatus(db.requests, r.id, Accepted));
  }
}
