/**
 * POST api/end_call.php: a participant ends, misses or declines a call. The
 * session records the final status, the end time and a duration that is
 * non-zero only when an answered call is ended; the other participant is
 * told of a decline or an end.
 */
module EndCall {
  import opened Wrappers
  import opened Php
  import opened Http
  import opened Schema
  import Db
  import Seqs
  import Notify

  const END_STATUSES: seq<string> := ["ended", "missed", "declined"]

  datatype Request = Request(callId: int, status: string)

  /** `call_id` is required; `status` defaults to, and falls back to, "ended". */
  function Parse(input: Value): (r: Checked<Request>)
    ensures r.Reject? <==> Empty(input) || !Isset(input, "call_id")
    ensures r.Reject? ==> r == Reject(400, "Call ID required")
    ensures r.Pass? ==> && r.value.callId == ToInt(Get(input, "call_id"))
                        && r.value.status in END_STATUSES
                        && (InList(Get(input, "status"), END_STATUSES) ==> r.value.status == Get(input, "status").s)
                        && (!InList(Get(input, "status"), END_STATUSES) ==> r.value.status == "ended")
  {
    if Empty(input) || !Isset(input, "call_id") then Reject(400, "Call ID required")
    else Pass(Request(ToInt(Get(input, "call_id")), OneOf(input, "status", END_STATUSES, "ended")))
  }

  /** `SELECT ... FROM call_sessions WHERE id = ?`: the first such row. */
  function FindCall(calls: seq<CallSession>, id: int): (r: Option<nat>)
    ensures r.Some? ==> r.value < |calls| && calls[r.value].id == id
    ensures r.None? <==> forall k :: 0 <= k < |calls| ==> calls[k].id != id
  {
    Seqs.Find(calls, (c: CallSession) => c.id == id)
  }

  predicate Participant(c: CallSession, userId: int) {
    c.callerId == userId || c.receiverId == userId
  }

  /** The checks, in order; on success the index of the session. */
  function Check(calls: seq<CallSession>, caller: int, input: Value): (r: Checked<(nat, string)>)
    ensures Parse(input).Reject? ==> r == Reject(400, "Call ID required")
    ensures r.Reject? && r.code == 404 <==> Parse(input).Pass? && FindCall(calls, Parse(input).value.callId).None?
    ensures r.Reject? && r.code == 403 <==>
              && Parse(input).Pass? && FindCall(calls, Parse(input).value.callId).Some?
              && !Participant(calls[FindCall(calls, Parse(input).value.callId).value], caller)
    ensures r.Reject? && r.code == 404 ==> r.error == "Call session not found"
    ensures r.Reject? && r.code == 403 ==> r.error == "You are not part of this call"
    ensures r.Pass? <==>
              && Parse(input).Pass? && FindCall(calls, Parse(input).value.callId).Some?
              && Participant(calls[FindCall(calls, Parse(input).value.callId).value], caller)
    ensures r.Pass? ==> && Parse(input).Pass?
                        && r.value.0 == FindCall(calls, Parse(input).value.callId).value
                        && r.value.1 == Parse(input).value.status
                        && Participant(calls[r.value.0], caller)
  {
    match Parse(input)
    case Reject(code, error) => Reject(code, error)
    case Pass(q) =>
      match FindCall(calls, q.callId)
      case None => Reject(404, "Call session not found")
      case Some(k) =>
        if !Participant(calls[k], caller) then Reject(403, "You are not part of this call")
        else Pass((k, q.status))
  }

  /** Only an answered call that is now ended has a duration: the seconds since it started. */
  function Duration(c: CallSession, status: string, now: int): (d: int)
    ensures d != 0 ==> c.status == "answered" && status == "ended"
    ensures c.status == "answered" && status == "ended" ==> d == now - c.startedAt
  {
    if c.status == "answered" && status == "ended" then now - c.startedAt else 0
  }

  /** UPDATE call_sessions SET status = ?, ended_at = NOW(), duration = ? WHERE id = ?. */
  function Ended(calls: seq<CallSession>, id: int, status: string, duration: int, now: int): (r: seq<CallSession>)
    ensures |r| == |calls|
    ensures forall k :: 0 <= k < |r| ==>
              r[k] == if calls[k].id == id then calls[k].(status := status, endedAt := Some(now), duration := duration)
                      else calls[k]
  {
    Seqs.UpdateWhere(calls, (c: CallSession) => c.id == id,
                     (c: CallSession) => c.(status := status, endedAt := Some(now), duration := duration))
  }

  /** The participant who did not make this request. */
  function Other(c: CallSession, userId: int): (o: int)
    requires Participant(c, userId)
    ensures Participant(c, o)
    ensures c.callerId != c.receiverId ==> o != userId
  {
    if c.callerId == userId then c.receiverId else c.callerId
  }

  /** Ending a call a second time reports no duration, since the call is no longer answered. */
  lemma EndTwiceNoDuration(c: CallSession, status: string, status2: string, now: int, later: int)
    requires status in END_STATUSES
    ensures Duration(c.(status := status, endedAt := Some(now), duration := Duration(c, status, now)), status2, later) == 0
  {
  }

  /** The answer. */
  datatype CallEnded = CallEnded(callId: int, status: string, duration: int)

  /** The notification the other participant gets, if any: declined and ended are told, missed is not. */
  function Notice(status: string, callId: int, duration: int, username: string): (n: Option<(string, string, Value)>)
    ensures n.Some? <==> status == "declined" || status == "ended"
    ensures status == "declined" ==> n.value.0 == "Call Declined"
    ensures status == "ended" ==> n.value.0 == "Call Ended"
  {
    if status == "declined" then
      Some(("Call Declined", username + " declined your call",
            VMap(map["call_id" := VInt(callId), "status" := VStr(status)])))
    else if status == "ended" then
      Some(("Call Ended", "Call ended",
            VMap(map["call_id" := VInt(callId), "status" := VStr(status), "duration" := VInt(duration)])))
    else None
  }

  /** The endpoint. */
  method End(db: Db.Database, caller: int, input: Value, now: int) returns (resp: Response<CallEnded>)
    requires db.Valid()
    modifies db`calls, db`notifications, db`nextNotificationId, db`outbox
    ensures db.Valid()
    ensures resp.Success? <==>
              && Parse(input).Pass? && FindCall(old(db.calls), Parse(input).value.callId).Some?
              && Participant(old(db.calls)[FindCall(old(db.calls), Parse(input).value.callId).value], caller)
    ensures Check(old(db.calls), caller, input).Reject? ==>
              && resp == Failure(Check(old(db.calls), caller, input).code, Check(old(db.calls), caller, input).error)
              && db.calls == old(db.calls) && db.Sent() == old(db.Sent())
    ensures Check(old(db.calls), caller, input).Pass? ==>
              var (k, status) := Check(old(db.calls), caller, input).value;
              var c := old(db.calls)[k];
              var duration := Duration(c, status, now);
              var notice := Notice(status, c.id, duration, UsernameOf(db.users, caller));
              && db.calls == Ended(old(db.calls), c.id, status, duration, now)
              && db.Sent() == (if notice.Some? then
                                 Notify.AfterSend(old(db.Sent()), db.tokens, Other(c, caller), "call", notice.value.0,
                                                  notice.value.1, notice.value.2, now)
                               else old(db.Sent()))
              && resp == Success(CallEnded(c.id, status, duration), "Call ended successfully")
  {
    var checked := Check(db.calls, caller, input);
    if checked.Reject? {
      return Failure(checked.code, checked.error);
    }
    var (k, status) := checked.value;
    var c := db.calls[k];
    var duration := Duration(c, status, now);
    Db.UpdateIdsBelow(db.calls, (x: CallSession) => x.id == c.id,
                      (x: CallSession) => x.(status := status, endedAt := Some(now), duration := duration),
                      Db.CallId, db.nextCallId);
    db.SetCalls(Ended(db.calls, c.id, status, duration, now));
    var notice := Notice(status, c.id, duration, UsernameOf(db.users, caller));
    if notice.Some? {
      Notify.Send(db, Other(c, caller), "call", notice.value.0, notice.value.1, notice.value.2, now);
    }
    resp := Success(CallEnded(c.id, status, duration), "Call ended successfully");
  }
}
