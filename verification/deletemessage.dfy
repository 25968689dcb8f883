/**
 * DELETE api/delete_message.php: the sender soft-deletes one of their
 * messages, either for everyone (only within five minutes of sending, and the
 * media file goes too) or "for me", which performs the same soft delete with
 * no time limit.
 */
module DeleteMessage {
  import opened Wrappers
  import opened Php
  import opened Http
  import opened Schema
  import Config
  import Db
  import Seqs

  datatype DeleteRequest = DeleteRequest(messageId: int, forEveryone: bool)

  const DELETED_TEXT: string := "[Message deleted]"

  /** The checks on the request body: a truthy body with message_id set. */
  function ParseDelete(input: Value): (r: Checked<DeleteRequest>)
    ensures r.Reject? <==> Empty(input) || !Isset(input, "message_id")
    ensures r.Reject? ==> r == Reject(400, "Message ID required")
    ensures r.Pass? ==> r.value.messageId == ToInt(Get(input, "message_id"))
    ensures r.Pass? ==> (r.value.forEveryone <==> !Empty(Get(input, "delete_for_everyone")))
  {
    if Empty(input) || !Isset(input, "message_id") then Reject(400, "Message ID required")
    else
      var forEveryone := if Isset(input, "delete_for_everyone") then ToBool(Get(input, "delete_for_everyone")) else false;
      Pass(DeleteRequest(ToInt(Get(input, "message_id")), forEveryone))
  }

  /** Every check before the UPDATE; the five-minute window applies only to deleting for everyone. */
  function CheckDelete(messages: seq<Message>, caller: int, input: Value, now: int): (r: Checked<DeleteRequest>)
    ensures ParseDelete(input).Reject? ==> r == ParseDelete(input)
    ensures r.Pass? <==>
              && ParseDelete(input).Pass?
              && FindMessage(messages, ParseDelete(input).value.messageId).Some?
              && var m := messages[FindMessage(messages, ParseDelete(input).value.messageId).value];
                 m.senderId == caller
                 && (ParseDelete(input).value.forEveryone ==> now - m.createdAt <= Config.MESSAGE_EDIT_TIME_LIMIT)
    ensures r.Pass? ==> r == ParseDelete(input)
    ensures r.Reject? && r.code == 404 <==>
              ParseDelete(input).Pass? && FindMessage(messages, ParseDelete(input).value.messageId).None?
    ensures r.Reject? && r.code == 403 <==>
              && ParseDelete(input).Pass? && FindMessage(messages, ParseDelete(input).value.messageId).Some?
              && messages[FindMessage(messages, ParseDelete(input).value.messageId).value].senderId != caller
    ensures r.Reject? && r.code == 404 ==> r.error == "Message not found"
    ensures r.Reject? && r.code == 403 ==> r.error == "You can only delete your own messages"
    ensures ParseDelete(input).Pass? && FindMessage(messages, ParseDelete(input).value.messageId).Some? ==>
              var m := messages[FindMessage(messages, ParseDelete(input).value.messageId).value];
              (m.senderId == caller && ParseDelete(input).value.forEveryone
               && now - m.createdAt > Config.MESSAGE_EDIT_TIME_LIMIT)
              ==> r == Reject(400, "Message delete time limit exceeded (5 minutes)")
  {
    match ParseDelete(input)
    case Reject(code, error) => Reject(code, error)
    case Pass(req) =>
      match FindMessage(messages, req.messageId)
      case None => Reject(404, "Message not found")
      case Some(k) =>
        var m := messages[k];
        if m.senderId != caller then Reject(403, "You can only delete your own messages")
        else if req.forEveryone && now - m.createdAt > Config.MESSAGE_EDIT_TIME_LIMIT then
          Reject(400, "Message delete time limit exceeded (5 minutes)")
        else Pass(req)
  }

  /** The soft-deleted row: flagged deleted now, its text replaced; media_url and the rest stay. */
  function SoftDeleted(m: Message, now: int): Message {
    m.(isDeleted := true, deletedAt := Some(now), content := DELETED_TEXT)
  }

  /** UPDATE messages SET is_deleted = 1, deleted_at = NOW(), content = '[Message deleted]' WHERE id = ?. */
  function ApplyDelete(messages: seq<Message>, id: int, now: int): (r: seq<Message>)
    ensures |r| == |messages|
    ensures forall k :: 0 <= k < |r| ==>
              r[k] == if messages[k].id == id then SoftDeleted(messages[k], now) else messages[k]
  {
    Seqs.UpdateWhere(messages, (m: Message) => m.id == id, (m: Message) => SoftDeleted(m, now))
  }

  lemma ApplyDeleteKeepsIds(messages: seq<Message>, next: int, id: int, now: int)
    requires Db.IdsBelow(messages, Db.MessageId, next)
    ensures Db.IdsBelow(ApplyDelete(messages, id, now), Db.MessageId, next)
  {
    Db.UpdateIdsBelow(messages, (m: Message) => m.id == id, (m: Message) => SoftDeleted(m, now), Db.MessageId, next);
  }

  /** After a delete no undeleted row has that id: deleting again answers 404 and changes nothing. */
  lemma DeleteAgainNotFound(messages: seq<Message>, id: int, now: int)
    ensures FindMessage(ApplyDelete(messages, id, now), id).None?
  {
    var after := ApplyDelete(messages, id, now);
    forall k | 0 <= k < |after| ensures !(after[k].id == id && !after[k].isDeleted) {
    }
  }

  /** Once deleted, a message is hidden from every reader. */
  lemma DeletedIsHidden(messages: seq<Message>, id: int, now: int, later: int)
    ensures forall k :: 0 <= k < |messages| && messages[k].id == id ==>
              !LiveMessage(ApplyDelete(messages, id, now)[k], later)
  {
  }

  /** The endpoint. */
  method Delete(db: Db.Database, caller: int, input: Value, now: int) returns (resp: Response<()>)
    requires db.Valid()
    modifies db`messages, db`files
    ensures db.Valid()
    ensures resp.Success? <==>
              && ParseDelete(input).Pass?
              && FindMessage(old(db.messages), ParseDelete(input).value.messageId).Some?
              && var m := old(db.messages)[FindMessage(old(db.messages), ParseDelete(input).value.messageId).value];
                 m.senderId == caller
                 && (ParseDelete(input).value.forEveryone ==> now - m.createdAt <= Config.MESSAGE_EDIT_TIME_LIMIT)
    ensures var c := CheckDelete(old(db.messages), caller, input, now);
            && (c.Reject? ==> resp == Failure(c.code, c.error) && db.messages == old(db.messages)
                              && db.files == old(db.files))
            && (c.Pass? ==>
                  var m := old(db.messages)[FindMessage(old(db.messages), c.value.messageId).value];
                  && db.messages == ApplyDelete(old(db.messages), c.value.messageId, now)
                  && (c.value.forEveryone && !EmptyString(m.mediaUrl) ==> db.files == old(db.files) - {"../" + m.mediaUrl})
                  && (!c.value.forEveryone || EmptyString(m.mediaUrl) ==> db.files == old(db.files))
                  && resp == Success((), if c.value.forEveryone then "Message deleted for everyone" else "Message deleted"))
  {
    var c := CheckDelete(db.messages, caller, input, now);
    if c.Reject? {
      return Failure(c.code, c.error);
    }
    var m := db.messages[FindMessage(db.messages, c.value.messageId).value];
    ApplyDeleteKeepsIds(db.messages, db.nextMessageId, c.value.messageId, now);
    db.SetMessages(ApplyDelete(db.messages, c.value.messageId, now));
    if c.value.forEveryone {
      if !EmptyString(m.mediaUrl) {
        var path := "../" + m.mediaUrl;
        if path in db.files {
          db.files := db.files - {path};
        }
      }
      resp := Success((), "Message deleted for everyone");
    } else {
      resp := Success((), "Message deleted");
    }
  }
}
