/**
 * POST api/initiate_call.php: the caller starts an audio or video call with
 * another user. The call session gets a channel name built from the two ids
 * in ascending order, and the receiver is notified.
 */
module InitiateCall {
  import opened Wrappers
  import opened Php
  import opened Http
  import opened Schema
  import Validator
  import Db
  import Notify

  const CALL_TYPES: seq<string> := ["audio", "video"]

  datatype Request = Request(receiverId: int, callType: string)

  /** The checks before the receiver lookup, in order. */
  function Parse(input: Value, caller: int): (r: Checked<Request>)
    ensures r.Reject? ==> r.code == 400
    ensures Empty(input) ==> r == Reject(400, "Invalid JSON input")
    ensures r.Pass? <==>
              && !Empty(input) && !Empty(Get(input, "receiver_id")) && !Empty(Get(input, "call_type"))
              && InList(Get(input, "call_type"), CALL_TYPES) && ToInt(Get(input, "receiver_id")) != caller
    ensures r.Pass? ==> r.value == Request(ToInt(Get(input, "receiver_id")), Get(input, "call_type").s)
                        && r.value.callType in CALL_TYPES && r.value.receiverId != caller
  {
    if Empty(input) then Reject(400, "Invalid JSON input")
    else
      var missing := Validator.MissingFields(["receiver_id", "call_type"], input);
      Validator.NoneMissingOfTwo("receiver_id", "call_type", input);
      if missing != [] then Reject(400, Validator.MissingMessage(missing))
      else if !InList(Get(input, "call_type"), CALL_TYPES) then Reject(400, "Invalid call type. Use \"audio\" or \"video\"")
      else if ToInt(Get(input, "receiver_id")) == caller then Reject(400, "Cannot call yourself")
      else Pass(Request(ToInt(Get(input, "receiver_id")), Get(input, "call_type").s))
  }

  function Min(a: int, b: int): int { if a <= b then a else b }
  function Max(a: int, b: int): int { if a <= b then b else a }

  /** `'call_' . min(a, b) . '_' . max(a, b) . '_' . time()`. */
  function Channel(a: int, b: int, now: int): string {
    "call_" + IntToString(Min(a, b)) + "_" + IntToString(Max(a, b)) + "_" + IntToString(now)
  }

  /** The channel name does not depend on who calls whom. */
  lemma ChannelSymmetric(a: int, b: int, now: int)
    ensures Channel(a, b, now) == Channel(b, a, now)
  {
  }

  /** The title of the call notification: "Audio Call" or "Video Call". */
  function Title(callType: string): (t: string)
    requires callType in CALL_TYPES
    ensures callType == "audio" ==> t == "Audio Call"
    ensures callType == "video" ==> t == "Video Call"
  {
    Ucfirst(callType) + " Call"
  }

  function CallData(callId: int, channel: string, caller: int, callType: string): Value {
    VMap(map["call_id" := VInt(callId), "channel_name" := VStr(channel), "caller_id" := VInt(caller),
             "call_type" := VStr(callType)])
  }

  /** The answer; `receiver` is the receiver's username row. */
  datatype CallStarted = CallStarted(callId: int, channelName: string, callType: string, receiverUsername: string,
                                     status: string)

  /** The endpoint: one call_sessions row, initiated, and one notification to the receiver. */
  method Initiate(db: Db.Database, caller: int, input: Value, now: int) returns (resp: Response<CallStarted>)
    requires db.Valid()
    modifies db`calls, db`nextCallId, db`notifications, db`nextNotificationId, db`outbox
    ensures db.Valid()
    ensures Parse(input, caller).Reject? ==>
              && resp == Failure(400, Parse(input, caller).error)
              && db.calls == old(db.calls) && db.nextCallId == old(db.nextCallId) && db.Sent() == old(db.Sent())
    ensures Parse(input, caller).Pass? && !UserExists(db.users, Parse(input, caller).value.receiverId) ==>
              && resp == Failure(404, "Receiver not found")
              && db.calls == old(db.calls) && db.nextCallId == old(db.nextCallId) && db.Sent() == old(db.Sent())
    ensures Parse(input, caller).Pass? && UserExists(db.users, Parse(input, caller).value.receiverId) ==>
              var q := Parse(input, caller).value;
              var channel := Channel(caller, q.receiverId, now);
              var c := CallSession(old(db.nextCallId), channel, caller, q.receiverId, q.callType, "initiated", now,
                                   None, 0);
              && db.calls == old(db.calls) + [c] && db.nextCallId == old(db.nextCallId) + 1
              && db.Sent() == Notify.AfterSend(old(db.Sent()), db.tokens, q.receiverId, "call", Title(q.callType),
                                               UsernameOf(db.users, caller) + " is calling you",
                                               CallData(c.id, channel, caller, q.callType), now)
              && resp == Success(CallStarted(c.id, channel, q.callType, UsernameOf(db.users, q.receiverId), "initiated"),
                                 "Call initiated successfully")
  {
    var parsed := Parse(input, caller);
    if parsed.Reject? {
      return Failure(400, parsed.error);
    }
    var q := parsed.value;
    if !UserExists(db.users, q.receiverId) {
      return Failure(404, "Receiver not found");
    }
    var channel := Channel(caller, q.receiverId, now);
    var c := CallSession(db.nextCallId, channel, caller, q.receiverId, q.callType, "initiated", now, None, 0);
    db.AddCall(c);
    Notify.Send(db, q.receiverId, "call", Title(q.callType), UsernameOf(db.users, caller) + " is calling you",
                CallData(c.id, channel, caller, q.callType), now);
    resp := Success(CallStarted(c.id, channel, q.callType, UsernameOf(db.users, q.receiverId), "initiated"),
                    "Call initiated successfully");
  }
}
